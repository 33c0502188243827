/**
  The tax amount of a quote and the tax row appended to its items.  The amount is
  looked for between the first "Product" and the next "Total" after it, then in the
  whole text; it is kept as the matched text and read as a whole number of cents.
 */
module Tax {
  import opened Wrappers
  import opened Text
  import opened Tokens
  import opened Items

  /** The text searched first: from the first "Product" up to the first "Total" after
      it; the whole text when either is missing. */
  function TaxBlock(text: string): (block: string)
    ensures |block| <= |text|
  {
    var p := IndexOfFrom(text, "Product", 0);
    var t := IndexOfFrom(text, "Total", 0);
    if p.Some? && t.Some? then
      match IndexOfFrom(text, "Total", p.value)
      case None => text
      case Some(e) => text[p.value..e]
    else text
  }

  /** The block is the slice between the first "Product" and the first "Total" that
      follows it, whenever both exist in that order; otherwise the whole text. */
  lemma TaxBlockIsBetween(text: string)
    ensures var p := IndexOfFrom(text, "Product", 0);
            if p.Some? && IndexOfFrom(text, "Total", p.value).Some? then
              var e := IndexOfFrom(text, "Total", p.value).value;
              p.value <= e && TaxBlock(text) == text[p.value..e] &&
              OccursAt(text, "Product", p.value) && OccursAt(text, "Total", e) &&
              (forall i: nat :: i < p.value ==> !OccursAt(text, "Product", i)) &&
              (forall i: nat :: p.value <= i < e ==> !OccursAt(text, "Total", i))
            else TaxBlock(text) == text
  {
    var p := IndexOfFrom(text, "Product", 0);
    if p.Some? {
      var e := IndexOfFrom(text, "Total", p.value);
      if e.Some? {
        assert IndexOfFrom(text, "Total", 0).Some? by {
          assert OccursAt(text, "Total", e.value);
        }
      }
    }
  }

  /** Word characters for `\b`. */
  predicate IsWordCharAt(s: string, i: int) {
    0 <= i < |s| && IsAsciiWordChar(s[i])
  }

  /**
    `\bTax\s+([\d,]+\.\d{2})\b` tried at index `p`: a word boundary, "Tax", at least
    one whitespace character, a run of digits and commas, a point, two digits and a
    word boundary.  Each repetition can only match its longest run, so the match is
    decided without backtracking; the result is the captured amount.
   */
  function TaxMatchAt(s: string, p: nat): Option<string> {
    if !(OccursAt(s, "Tax", p) && !IsWordCharAt(s, p - 1)) then None
    else
      var a := SkipSpaces(s, p + 3);
      var b := a + LeadingDigitsOrCommas(s[a..]);
      if p + 3 < a < b && b + 3 <= |s| && s[b] == '.' && IsDigit(s[b + 1]) && IsDigit(s[b + 2]) &&
         !IsWordCharAt(s, b + 3)
      then Some(s[a..b + 3])
      else None
  }

  /** The first index at or after `from` where the tax pattern matches. */
  function FindTax(s: string, from: nat): (r: Option<nat>)
    requires from <= |s|
    ensures r.Some? ==> from <= r.value < |s| && TaxMatchAt(s, r.value).Some?
    ensures r.Some? ==> forall i :: from <= i < r.value ==> TaxMatchAt(s, i).None?
    ensures r.None? ==> forall i :: from <= i < |s| ==> TaxMatchAt(s, i).None?
    decreases |s| - from
  {
    if from == |s| then None
    else if TaxMatchAt(s, from).Some? then Some(from)
    else FindTax(s, from + 1)
  }

  /** `re.search` of the tax pattern: the amount of the leftmost match. */
  function SearchTax(s: string): (r: Option<string>)
    ensures r.Some? ==> IsAmountText(r.value)
  {
    match FindTax(s, 0)
    case None => None
    case Some(p) =>
      if TaxMatchAt(s, p).Some? then TaxMatchShape(s, p); TaxMatchAt(s, p) else None
  }

  /** `extract_tax_amount`, with the amount kept as its matched text: the block first,
      then the whole text. */
  function ExtractTaxAmount(text: string): (r: Option<string>)
    ensures r.Some? ==> IsAmountText(r.value)
  {
    var inBlock := SearchTax(TaxBlock(text));
    if inBlock.Some? then inBlock else SearchTax(text)
  }

  /** An amount as the pattern captures it: digits and commas, a point, two digits. */
  predicate IsAmountText(v: string) {
    |v| >= 4 && v[|v| - 3] == '.' && IsDigit(v[|v| - 2]) && IsDigit(v[|v| - 1]) &&
    AllDigitsOrCommas(v[..|v| - 3]) && v[0] != '.'
  }

  /** Every amount the pattern captures has the amount shape. */
  lemma TaxMatchShape(s: string, p: nat)
    requires TaxMatchAt(s, p).Some?
    ensures IsAmountText(TaxMatchAt(s, p).value)
  {
    var a := SkipSpaces(s, p + 3);
    var b := a + LeadingDigitsOrCommas(s[a..]);
    var v := s[a..b + 3];
    assert v[..|v| - 3] == s[a..][..b - a];
  }

  /** A found amount is the capture of the leftmost match in the block, or, when the
      block has none, of the leftmost match in the whole text. */
  lemma ExtractTaxAmountSource(text: string)
    ensures var r := ExtractTaxAmount(text);
            var block := TaxBlock(text);
            (r.None? <==> FindTax(block, 0).None? && FindTax(text, 0).None?) &&
            (FindTax(block, 0).Some? ==> r == TaxMatchAt(block, FindTax(block, 0).value)) &&
            (FindTax(block, 0).None? && FindTax(text, 0).Some? ==> r == TaxMatchAt(text, FindTax(text, 0).value))
    ensures ExtractTaxAmount(text).Some? ==> IsAmountText(ExtractTaxAmount(text).value)
  {
    var block := TaxBlock(text);
    var fb := FindTax(block, 0);
    if fb.Some? {
      TaxMatchShape(block, fb.value);
    } else {
      var ft := FindTax(text, 0);
      if ft.Some? {
        TaxMatchShape(text, ft.value);
      }
    }
  }

  // ----- amounts as cents -----

  /** The number written by the digits of `s`, commas ignored. */
  function ValueOf(s: string): nat
    requires AllDigitsOrCommas(s)
  {
    if s == [] then 0
    else
      var c := s[|s| - 1];
      if c == ',' then ValueOf(s[..|s| - 1]) else ValueOf(s[..|s| - 1]) * 10 + DigitValue(c)
  }

  /** The amount in cents (`float(amount.replace(",", ""))` times 100, exactly). */
  function Cents(v: string): nat
    requires IsAmountText(v)
  {
    ValueOf(v[..|v| - 3]) * 100 + DigitValue(v[|v| - 2]) * 10 + DigitValue(v[|v| - 1])
  }

  lemma ValueOfSnoc(s: string, c: char)
    requires AllDigitsOrCommas(s) && (IsDigit(c) || c == ',')
    ensures AllDigitsOrCommas(s + [c])
    ensures ValueOf(s + [c]) == if c == ',' then ValueOf(s) else ValueOf(s) * 10 + DigitValue(c)
  {
    assert (s + [c])[..|s|] == s;
  }

  /** `n` in decimal, without leading zeros. */
  function Decimal(n: nat): (s: string)
    ensures s != [] && AllDigits(s)
  {
    if n < 10 then [Digit(n)] else Decimal(n / 10) + [Digit(n % 10)]
  }

  /** Three digits, zero-padded. */
  function Pad3(r: nat): (s: string)
    requires r < 1000
    ensures |s| == 3 && AllDigits(s)
  {
    [Digit(r / 100), Digit(r / 10 % 10), Digit(r % 10)]
  }

  /** `n` in decimal with a comma between groups of three digits (the `,` format). */
  function Grouped(n: nat): (s: string)
    ensures s != [] && AllDigitsOrCommas(s) && IsDigit(s[0])
  {
    if n < 1000 then Decimal(n) else Grouped(n / 1000) + "," + Pad3(n % 1000)
  }

  /** `f"{x:,.2f}"` for an amount of `c` cents. */
  function FormatCents(c: nat): string {
    Grouped(c / 100) + "." + [Digit(c % 100 / 10), Digit(c % 10)]
  }

  lemma {:induction false} ValueOfDecimal(n: nat)
    ensures ValueOf(Decimal(n)) == n
  {
    if n >= 10 {
      ValueOfDecimal(n / 10);
      ValueOfSnoc(Decimal(n / 10), Digit(n % 10));
    }
  }

  lemma Pad3Value(r: nat)
    requires r < 1000
    ensures var p := Pad3(r);
            DigitValue(p[0]) * 100 + DigitValue(p[1]) * 10 + DigitValue(p[2]) == r
  {
    var q := r / 10;
    assert r == q * 10 + r % 10;
    assert q == r / 100 * 10 + q % 10;
    assert DigitValue(Pad3(r)[0]) == r / 100;
    assert DigitValue(Pad3(r)[1]) == q % 10;
    assert DigitValue(Pad3(r)[2]) == r % 10;
  }

  /** A comma and a zero-padded group of three shift the value by a thousand. */
  lemma ValueOfGroup(g: string, r: nat)
    requires AllDigitsOrCommas(g) && r < 1000
    ensures AllDigitsOrCommas(g + "," + Pad3(r))
    ensures ValueOf(g + "," + Pad3(r)) == ValueOf(g) * 1000 + r
  {
    var p := Pad3(r);
    ValueOfSnoc(g, ',');
    ValueOfSnoc(g + ",", p[0]);
    ValueOfSnoc(g + "," + [p[0]], p[1]);
    ValueOfSnoc(g + "," + [p[0]] + [p[1]], p[2]);
    assert g + "," + p == g + "," + [p[0]] + [p[1]] + [p[2]];
    Pad3Value(r);
  }

  lemma {:induction false} ValueOfGrouped(n: nat)
    ensures ValueOf(Grouped(n)) == n
  {
    if n < 1000 {
      ValueOfDecimal(n);
    } else {
      ValueOfGrouped(n / 1000);
      ValueOfGroup(Grouped(n / 1000), n % 1000);
    }
  }

  /** The formatted amount has the amount shape, is a money token, and reads back as
      the same number of cents. */
  lemma FormatCentsRoundTrip(c: nat)
    ensures IsAmountText(FormatCents(c))
    ensures Cents(FormatCents(c)) == c
    ensures IsMoney(FormatCents(c))
  {
    FormatCentsValue(c);
    FormatCentsMoney(c);
  }

  lemma FormatCentsValue(c: nat)
    ensures IsAmountText(FormatCents(c)) && Cents(FormatCents(c)) == c
  {
    var v := FormatCents(c);
    assert v[..|v| - 3] == Grouped(c / 100);
    ValueOfGrouped(c / 100);
  }

  lemma FormatCentsMoney(c: nat)
    ensures IsMoney(FormatCents(c))
  {
    var g := Grouped(c / 100);
    var tail := "." + [Digit(c % 100 / 10), Digit(c % 10)];
    var v := FormatCents(c);
    assert v == g + tail;
    LeadingRunOf(g, tail);
    assert MoneyBody(v) == v;
    assert v[|g| + 1..] == [Digit(c % 100 / 10), Digit(c % 10)];
  }

  /** The digits-and-commas run of `g + tail` is `g` when `tail` starts with something
      else. */
  lemma {:induction false} LeadingRunOf(g: string, tail: string)
    requires AllDigitsOrCommas(g) && tail != [] && !(IsDigit(tail[0]) || tail[0] == ',')
    ensures LeadingDigitsOrCommas(g + tail) == |g|
  {
    if g != [] {
      assert (g + tail)[1..] == g[1..] + tail;
      LeadingRunOf(g[1..], tail);
    }
  }

  // ----- the tax row -----

  /** A tax amount adds a row exactly when it is not zero (`abs(x) >= 0.005` on a
      two-decimal amount). */
  predicate TaxRowDue(tax: Option<string>) {
    tax.Some? && IsAmountText(tax.value) && Cents(tax.value) != 0
  }

  /** The item list with the tax row appended when the tax is due. */
  function WithTaxRow(items: seq<LineItem>, tax: Option<string>): (r: seq<LineItem>)
    ensures |items| <= |r| <= |items| + 1
    ensures forall k :: 0 <= k < |items| ==> r[k] == items[k]
  {
    if TaxRowDue(tax) then
      var p := FormatCents(Cents(tax.value));
      items + [LineItem("TAX", "Tax", "1", p, p, "")]
    else items
  }

  /** A missing or zero tax leaves the items alone; a non-zero one appends exactly one
      last item, coded "TAX"/"Tax" with quantity "1", no description, and unit price
      equal to the total, which is the amount re-formatted: a money token worth the
      same number of cents. */
  lemma TaxRowRule(items: seq<LineItem>, tax: Option<string>)
    ensures !TaxRowDue(tax) ==> WithTaxRow(items, tax) == items
    ensures TaxRowDue(tax) ==>
      var r := WithTaxRow(items, tax);
      |r| == |items| + 1 && r[..|items|] == items &&
      var t := r[|items|];
      t.lineNo == "TAX" && t.itemId == "Tax" && t.qty == "1" && t.description == "" &&
      t.unitPrice == t.total && IsMoney(t.total) &&
      IsAmountText(t.total) && Cents(t.total) == Cents(tax.value)
  {
    if TaxRowDue(tax) {
      FormatCentsRoundTrip(Cents(tax.value));
      var r := WithTaxRow(items, tax);
      assert r[..|items|] == items;
    }
  }
}
