/**
  The token classifiers of the line-item extractor: MONEY_RE, QTY_RE, ITEM_ID_RE,
  ITEM_START_RE, SUMMARY_STOP_LINE_RE and the "wordy token" test used to decide
  what counts as description text. Each regex is written out as the set of strings
  it accepts (its backtracking resolved by hand, see the comments).
 */
module Tokens {
  import opened Wrappers
  import opened Text

  predicate IsDigit(c: char) { '0' <= c <= '9' }

  /** The value of a decimal digit. */
  function DigitValue(c: char): nat
    requires IsDigit(c)
  {
    c as int - '0' as int
  }

  /** The decimal digit of value `d`. */
  function Digit(d: nat): (c: char)
    requires d < 10
    ensures IsDigit(c) && DigitValue(c) == d
  {
    ('0' as int + d) as char
  }

  predicate AllDigits(s: string) {
    forall i :: 0 <= i < |s| ==> IsDigit(s[i])
  }

  /** `s.isdigit()`: non-empty and only digits. */
  predicate IsDigitString(s: string) {
    s != [] && AllDigits(s)
  }

  predicate AllDigitsOrCommas(s: string) {
    forall i :: 0 <= i < |s| ==> IsDigit(s[i]) || s[i] == ','
  }

  /** The body of a money token after the optional leading `$`. */
  function MoneyBody(t: string): string {
    if |t| > 0 && t[0] == '$' then t[1..] else t
  }

  /** Number of digits that start `s`. */
  function LeadingDigits(s: string): (n: nat)
    ensures n <= |s| && AllDigits(s[..n])
    ensures n == |s| || !IsDigit(s[n])
  {
    if s == [] || !IsDigit(s[0]) then 0
    else
      var n := 1 + LeadingDigits(s[1..]);
      assert s[..n] == [s[0]] + s[1..][..n - 1];
      n
  }

  /** Number of digits and commas that start `s`. */
  function LeadingDigitsOrCommas(s: string): (n: nat)
    ensures n <= |s| && AllDigitsOrCommas(s[..n])
    ensures n == |s| || !(IsDigit(s[n]) || s[n] == ',')
  {
    if s == [] || !(IsDigit(s[0]) || s[0] == ',') then 0
    else
      var n := 1 + LeadingDigitsOrCommas(s[1..]);
      assert s[..n] == [s[0]] + s[1..][..n - 1];
      n
  }

  /**
    `MONEY_RE = ^\$?[\d,]+\.\d{2,5}$`. Neither `[\d,]` nor `\d` matches `.`, so the `.`
    must come right after the whole leading run of digits and commas of the body
    (which must not be empty), and 2 to 5 digits end the token.
   */
  predicate IsMoney(t: string)
    ensures IsMoney(t) ==> 4 <= |t| && IsDigit(t[|t| - 2]) && IsDigit(t[|t| - 1])
  {
    var b := MoneyBody(t);
    var k := LeadingDigitsOrCommas(b);
    0 < k < |b| && b[k] == '.' && 2 <= |b| - k - 1 <= 5 && AllDigits(b[k + 1..])
  }

  /** `QTY_RE = ^\d+(?:\.\d+)?$`: digits, or digits, a dot and digits. */
  predicate IsQty(t: string)
    ensures IsQty(t) ==> t != [] && IsDigit(t[0]) && IsDigit(t[|t| - 1])
  {
    var k := LeadingDigits(t);
    0 < k && (k == |t| || (t[k] == '.' && IsDigitString(t[k + 1..])))
  }

  predicate IsIdHead(c: char) { 'A' <= c <= 'Z' || IsDigit(c) }

  predicate IsIdChar(c: char) { IsIdHead(c) || c == '.' || c == '-' || c == '/' || c == '_' }

  /** `ITEM_ID_RE = ^[A-Z0-9][A-Z0-9.\-/_]+$`: at least two characters. */
  predicate IsItemId(s: string)
    ensures IsItemId(s) ==> NoSpace(s)
  {
    |s| >= 2 && IsIdHead(s[0]) && forall i :: 1 <= i < |s| ==> IsIdChar(s[i])
  }

  /** `re.fullmatch(r"[A-Z/]+", t)`. */
  predicate IsCapsOrSlash(t: string) {
    t != [] && forall i :: 0 <= i < |t| ==> ('A' <= t[i] <= 'Z' || t[i] == '/')
  }

  /** A token that reads as description text: not a quantity, not money, not an
      all-caps/slash code and not all digits. */
  predicate IsWordy(t: string)
    ensures IsWordy(t) && t != [] ==> exists i :: 0 <= i < |t| && !IsDigit(t[i])
  {
    !(IsQty(t) || IsMoney(t) || IsCapsOrSlash(t) || IsDigitString(t))
  }

  predicate HasWordy(toks: seq<string>) {
    exists i :: 0 <= i < |toks| && IsWordy(toks[i])
  }

  /** The money tokens of `toks`, in order (`[t for t in toks if MONEY_RE.match(t)]`). */
  function MoneyTokens(toks: seq<string>): (m: seq<string>)
    ensures |m| <= |toks|
    ensures forall i :: 0 <= i < |m| ==> IsMoney(m[i])
  {
    if toks == [] then []
    else
      var m := MoneyTokens(toks[..|toks| - 1]);
      if IsMoney(toks[|toks| - 1]) then m + [toks[|toks| - 1]] else m
  }

  /** Index of the last money token among the first `n` tokens, if there is one. */
  function LastMoneyBefore(toks: seq<string>, n: nat): (r: Option<nat>)
    requires n <= |toks|
    ensures r.None? ==> forall i :: 0 <= i < n ==> !IsMoney(toks[i])
    ensures r.Some? ==> r.value < n && IsMoney(toks[r.value])
    ensures r.Some? ==> forall j :: r.value < j < n ==> !IsMoney(toks[j])
  {
    if n == 0 then None
    else if IsMoney(toks[n - 1]) then Some(n - 1)
    else
      var r := LastMoneyBefore(toks, n - 1);
      assert r.None? ==> forall i :: 0 <= i < n - 1 ==> !IsMoney(toks[i]);
      r
  }

  /** The money list of the first `n` tokens ends with the token at the last money
      index, and what comes before it is the money list of the tokens before it. */
  lemma {:induction false} MoneyTokensAtLast(toks: seq<string>, n: nat)
    requires n <= |toks|
    ensures LastMoneyBefore(toks, n).None? ==> MoneyTokens(toks[..n]) == []
    ensures LastMoneyBefore(toks, n).Some? ==>
      var i := LastMoneyBefore(toks, n).value;
      MoneyTokens(toks[..n]) == MoneyTokens(toks[..i]) + [toks[i]]
  {
    if n > 0 {
      var pre := toks[..n];
      assert pre[..n - 1] == toks[..n - 1];
      if !IsMoney(toks[n - 1]) {
        MoneyTokensAtLast(toks, n - 1);
      }
    }
  }

  /** Index of the first quantity-shaped token of `toks` at or after `k`. */
  function FirstQtyIndex(toks: seq<string>, k: nat): (r: Option<nat>)
    requires k <= |toks|
    ensures r.None? <==> forall i :: k <= i < |toks| ==> !IsQty(toks[i])
    ensures r.Some? ==> k <= r.value < |toks| && IsQty(toks[r.value])
    ensures r.Some? ==> forall i :: k <= i < r.value ==> !IsQty(toks[i])
    decreases |toks| - k
  {
    if k == |toks| then None
    else if IsQty(toks[k]) then Some(k)
    else FirstQtyIndex(toks, k + 1)
  }

  /** The token `"10.00"` has both the money shape and the quantity shape. */
  lemma TenDollarsIsMoneyAndQty()
    ensures IsMoney("10.00") && IsQty("10.00")
  {
    var t := "10.00";
    assert t[..2] == "10" && t[3..] == "00";
    assert MoneyBody(t) == t;
    assert t[2] == '.';
  }

  /** A money or quantity token is never description text. */
  lemma NumericTokensAreNotWordy(t: string)
    requires IsMoney(t) || IsQty(t)
    ensures !IsWordy(t)
  {
  }

  // ----- ITEM_START_RE = ^(\d{1,4})\s+([A-Z0-9][A-Z0-9.\-/_]+)\b, re.ASCII -----

  /** `\s` under re.ASCII. */
  predicate IsAsciiRegexSpace(c: char) {
    c == ' ' || c == '\t' || c == '\n' || c == '\r' || c == '\U{0B}' || c == '\U{0C}'
  }

  /** `\w` under re.ASCII. */
  predicate IsAsciiWordChar(c: char) {
    'A' <= c <= 'Z' || 'a' <= c <= 'z' || IsDigit(c) || c == '_'
  }

  /** First index at or after `i` that is not an ASCII regex space. */
  function SkipRegexSpaces(s: string, i: nat): (c: nat)
    requires i <= |s|
    ensures i <= c <= |s|
    ensures forall k :: i <= k < c ==> IsAsciiRegexSpace(s[k])
    ensures c == |s| || !IsAsciiRegexSpace(s[c])
    decreases |s| - i
  {
    if i < |s| && IsAsciiRegexSpace(s[i]) then SkipRegexSpaces(s, i + 1) else i
  }

  /** `\b` at index `e`, just after the character `s[e-1]`. */
  predicate AsciiBoundaryAt(s: string, e: nat)
    requires 0 < e <= |s|
  {
    IsAsciiWordChar(s[e - 1]) != (e < |s| && IsAsciiWordChar(s[e]))
  }

  /** First index at or after `i` whose character cannot continue an item code. */
  function IdRunEnd(s: string, i: nat): (e: nat)
    requires i <= |s|
    ensures i <= e <= |s|
    ensures forall k :: i <= k < e ==> IsIdChar(s[k])
    ensures e == |s| || !IsIdChar(s[e])
    decreases |s| - i
  {
    if i < |s| && IsIdChar(s[i]) then IdRunEnd(s, i + 1) else i
  }

  /** Some index `e` with `lo <= e <= hi` sits on a word boundary. */
  predicate BoundaryBetween(s: string, lo: nat, hi: nat)
    requires 0 < lo && hi <= |s|
    decreases hi + 1 - lo
  {
    lo <= hi && (AsciiBoundaryAt(s, lo) || BoundaryBetween(s, lo + 1, hi))
  }

  /**
    `ITEM_START_RE.match(s)`. A shorter digit group or a shorter `\s+` cannot be
    followed by what comes next, so the line number is all leading digits (1 to 4 of
    them) and the code starts at the first non-space after them. The code group may
    give characters back, so it is enough that SOME end, at least two characters into
    the code and within its run of code characters, sits on a word boundary.
   */
  predicate IsItemStart(s: string)
    ensures IsItemStart(s) ==> 4 <= |s| && IsDigit(s[0])
  {
    var n := LeadingDigits(s);
    1 <= n <= 4 && n < |s| && IsAsciiRegexSpace(s[n]) &&
    var c := SkipRegexSpaces(s, n);
    c < |s| && IsIdHead(s[c]) &&
    var run := IdRunEnd(s, c + 1);
    c + 2 <= run && BoundaryBetween(s, c + 2, run)
  }

  /** An item-start line splits into its line number and at least one more token. */
  lemma ItemStartTokens(s: string)
    requires IsItemStart(s)
    ensures |Split(s)| >= 2
    ensures Split(s)[0] == s[..LeadingDigits(s)] && IsDigitString(Split(s)[0])
  {
    var n := LeadingDigits(s);
    var c := SkipRegexSpaces(s, n);
    assert 1 <= n < c < |s|;
    assert !IsSpace(s[c]);
    DigitsThenWord(s, n, c);
  }

  lemma DigitsThenWord(s: string, n: nat, c: nat)
    requires 1 <= n < c < |s|
    requires AllDigits(s[..n])
    requires forall k :: n <= k < c ==> IsAsciiRegexSpace(s[k])
    requires !IsSpace(s[c])
    ensures |Split(s)| >= 2 && Split(s)[0] == s[..n]
  {
    var w := s[..n];
    var t := s[n..];
    assert NoSpace(w) by {
      forall i | 0 <= i < |w| ensures !IsSpace(w[i]) {
        assert IsDigit(w[i]);
      }
    }
    assert Split(s) == [w] + Split(t) by {
      assert s == w + t;
      assert t[0] == s[n];
      SplitWordThen(w, t);
    }
    GapThenWord(s, n, c);
  }

  /** Whitespace from `n` up to a non-blank character at `c` leaves at least one word. */
  lemma GapThenWord(s: string, n: nat, c: nat)
    requires n < c < |s|
    requires forall k :: n <= k < c ==> IsAsciiRegexSpace(s[k])
    requires !IsSpace(s[c])
    ensures |Split(s[n..])| >= 1
  {
    var t := s[n..];
    GapIsSpace(s, n, c);
    SplitSkipsSpaces(t, c - n);
    assert t[c - n..] == s[c..];
    NonBlankStartsWord(s[c..]);
  }

  lemma GapIsSpace(s: string, n: nat, c: nat)
    requires n < c < |s|
    requires forall k :: n <= k < c ==> IsAsciiRegexSpace(s[k])
    ensures AllSpace(s[n..][..c - n])
  {
    var gap := s[n..][..c - n];
    forall k | 0 <= k < |gap| ensures IsSpace(gap[k]) {
      assert gap[k] == s[n + k];
    }
  }

  /** A string that starts with a non-blank character has a word. */
  lemma NonBlankStartsWord(u: string)
    requires u != [] && !IsSpace(u[0])
    ensures |Split(u)| >= 1
  {
    assert u == [u[0]] + u[1..];
    SplitCons(u[0], u[1..]);
  }

  // ----- SUMMARY_STOP_LINE_RE = ^(Subtotal|Total\b|Grand\s+Total|Freight|Tax\b|Product\b), re.IGNORECASE -----

  function ToLower(c: char): char {
    if 'A' <= c <= 'Z' then (c as int + 32) as char else c
  }

  /** `s` starts with the lower-case word `w`, ignoring ASCII case. */
  predicate StartsWithCI(s: string, w: string) {
    |w| <= |s| && forall i :: 0 <= i < |w| ==> ToLower(s[i]) == w[i]
  }

  /** `\b` right after a leading word of length `k`. */
  predicate WordEndsAt(s: string, k: nat) {
    k >= |s| || !IsAsciiWordChar(s[k])
  }

  /** First index at or after `i` that is not whitespace. */
  function SkipSpaces(s: string, i: nat): (c: nat)
    requires i <= |s|
    ensures i <= c <= |s|
    ensures forall k :: i <= k < c ==> IsSpace(s[k])
    ensures c == |s| || !IsSpace(s[c])
    decreases |s| - i
  {
    if i < |s| && IsSpace(s[i]) then SkipSpaces(s, i + 1) else i
  }

  /** `Grand\s+Total`. */
  predicate StartsGrandTotal(s: string) {
    StartsWithCI(s, "grand") && 5 < |s| && IsSpace(s[5]) &&
    StartsWithCI(s[SkipSpaces(s, 5)..], "total")
  }

  /** `SUMMARY_STOP_LINE_RE.match(s)`: a subtotal, total, freight, tax or product line. */
  predicate IsSummaryLine(s: string)
    ensures IsSummaryLine(s) ==> 3 <= |s|
  {
    || StartsWithCI(s, "subtotal")
    || (StartsWithCI(s, "total") && WordEndsAt(s, 5))
    || StartsGrandTotal(s)
    || StartsWithCI(s, "freight")
    || (StartsWithCI(s, "tax") && WordEndsAt(s, 3))
    || (StartsWithCI(s, "product") && WordEndsAt(s, 7))
  }

  /** A line that starts an item (with a digit) never starts a summary (with a letter). */
  lemma ItemStartIsNotSummary(s: string)
    requires IsItemStart(s)
    ensures !IsSummaryLine(s)
  {
    assert LeadingDigits(s) >= 1;
    assert IsDigit(s[0]);
  }

  /** A line number cell (all digits) never reads as a summary word. */
  lemma DigitsAreNotSummary(s: string)
    requires IsDigitString(s)
    ensures !IsSummaryLine(s)
  {
    assert IsDigit(s[0]);
  }

  /** "GRAND  total" stops the item list. */
  lemma GrandTotalIsSummary()
    ensures IsSummaryLine("GRAND  total")
  {
    var s := "GRAND  total";
    assert SkipSpaces(s, 7) == 7;
    assert SkipSpaces(s, 5) == 7;
    assert s[7..] == "total";
    assert StartsGrandTotal(s);
  }

  /** "Totals" and "Taxable" are not summary lines: `Total\b` and `Tax\b` need a word end. */
  lemma LongerWordsAreNotSummary()
    ensures !IsSummaryLine("Totals")
    ensures !IsSummaryLine("Taxable")
  {
    assert ToLower('T') == 't';
    assert !WordEndsAt("Totals", 5);
    assert !WordEndsAt("Taxable", 3);
  }
}
