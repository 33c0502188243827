/**
  `normalize_date_str`: the first loose `M/D/Y` date (separators `/` or `-`) in a
  string becomes `MM/DD/YYYY`, with a year below 100 read as 20YY.
 */
module Dates {
  import opened Wrappers
  import opened Text
  import opened Tokens

  predicate IsDateSep(c: char) { c == '/' || c == '-' }

  /**
    Length of a `\d{1,2}` group at `p` that is followed by a separator, 0 if there is
    none. The greedy group tries two digits before one; after two digits a separator
    must follow, after one digit the next character must be the separator.
   */
  function PartLen(s: string, p: nat): (a: nat)
    ensures a <= 2
    ensures a > 0 ==> p + a < |s| && AllDigits(s[p..p + a]) && IsDateSep(s[p + a])
  {
    if p + 2 < |s| && IsDigit(s[p]) && IsDigit(s[p + 1]) && IsDateSep(s[p + 2]) then 2
    else if p + 1 < |s| && IsDigit(s[p]) && IsDateSep(s[p + 1]) then 1
    else 0
  }

  /** `int(digits)` for ASCII digits. */
  function DigitsValue(s: string): (v: nat)
    requires AllDigits(s)
    ensures |s| <= 1 ==> v < 10
    ensures |s| <= 2 ==> v < 100
    ensures |s| <= 3 ==> v < 1000
    ensures |s| <= 4 ==> v < 10000
  {
    if s == [] then 0 else DigitsValue(s[..|s| - 1]) * 10 + (s[|s| - 1] as int - '0' as int)
  }

  datatype DateParts = DateParts(month: nat, day: nat, year: nat)

  predicate InRange(d: DateParts) {
    d.month < 100 && d.day < 100 && d.year < 10000
  }

  function Min(a: nat, b: nat): nat { if a <= b then a else b }

  /** The match of `(\d{1,2})[\/\-](\d{1,2})[\/\-](\d{2,4})` at the start of `u`, if any
      (the greedy year takes up to four digits). */
  function MatchHead(u: string): (r: Option<DateParts>)
    ensures r.Some? ==> InRange(r.value)
  {
    var a := PartLen(u, 0);
    if a == 0 then None
    else
      var q := a + 1;
      var b := PartLen(u, q);
      if b == 0 then None
      else
        var r := q + b + 1;
        var c := Min(4, LeadingDigits(u[r..]));
        if c < 2 then None
        else
          assert u[r..r + c] == u[r..][..c];
          Some(DateParts(DigitsValue(u[..a]), DigitsValue(u[q..q + b]), DigitsValue(u[r..r + c])))
  }

  /** `re.search`: the leftmost match at or after `p`. */
  function FindDate(s: string, p: nat): (r: Option<DateParts>)
    requires p <= |s|
    ensures r.Some? ==> InRange(r.value)
    decreases |s| - p
  {
    if MatchHead(s[p..]).Some? then MatchHead(s[p..])
    else if p == |s| then None
    else FindDate(s, p + 1)
  }

  /** `f"{n:02d}"` for n < 100. */
  function Pad2(n: nat): string
    requires n < 100
  {
    [Digit(n / 10), Digit(n % 10)]
  }

  /** `f"{n:04d}"` for n < 10000. */
  function Pad4(n: nat): string
    requires n < 10000
  {
    [Digit(n / 1000), Digit(n / 100 % 10), Digit(n / 10 % 10), Digit(n % 10)]
  }

  /** The two-digit-year rule: a year below 100 is taken to be in the 2000s. */
  function FullYear(y: nat): nat {
    if y < 100 then y + 2000 else y
  }

  function FormatDate(d: DateParts): string
    requires InRange(d)
  {
    Pad2(d.month) + "/" + Pad2(d.day) + "/" + Pad4(FullYear(d.year))
  }

  /** `normalize_date_str`: None for None or "", the stripped input when it holds no
      date, the `MM/DD/YYYY` form of its first date otherwise. */
  function NormalizeDateStr(d: Option<string>): (r: Option<string>)
    ensures r.None? <==> d.None? || d.value == []
    ensures r.Some? && FindDate(d.value, 0).None? ==> r.value == Strip(d.value)
  {
    if d.None? || d.value == [] then None
    else
      match FindDate(d.value, 0)
      case None => Some(Strip(d.value))
      case Some(parts) => Some(FormatDate(parts))
  }

  /** The shape `MM/DD/YYYY`. */
  predicate IsNormalizedDate(s: string) {
    |s| == 10 && s[2] == '/' && s[5] == '/' &&
    AllDigits(s[0..2]) && AllDigits(s[3..5]) && AllDigits(s[6..10])
  }

  lemma Pad2Value(n: nat)
    requires n < 100
    ensures AllDigits(Pad2(n)) && DigitsValue(Pad2(n)) == n
  {
    var p := Pad2(n);
    assert p[..1] == [Digit(n / 10)];
    assert p[..1][..0] == [];
  }

  lemma Pad4Value(n: nat)
    requires n < 10000
    ensures AllDigits(Pad4(n)) && DigitsValue(Pad4(n)) == n
  {
    var p := Pad4(n);
    assert p[..3][..2][..1][..0] == [];
    var a := n / 10;
    var b := a / 10;
    assert b == n / 100;
    assert b / 10 == n / 1000;
    assert p[..3][..2] == p[..2] && p[..2][..1] == p[..1] && p[..4] == p;
    assert DigitsValue(p[..1]) == b / 10;
    assert DigitsValue(p[..2]) == b / 10 * 10 + b % 10 == b;
    assert DigitsValue(p[..3]) == b * 10 + a % 10 == a;
  }

  /** A formatted date is matched again at its first character, with the same month
      and day and the full year. */
  lemma FormatDateMatches(d: DateParts)
    requires InRange(d)
    ensures IsNormalizedDate(FormatDate(d))
    ensures MatchHead(FormatDate(d)) == Some(DateParts(d.month, d.day, FullYear(d.year)))
  {
    var s := FormatDate(d);
    var y := FullYear(d.year);
    Pad2Value(d.month);
    Pad2Value(d.day);
    Pad4Value(y);
    assert s[0..2] == s[..2] == Pad2(d.month);
    assert s[3..5] == Pad2(d.day);
    assert s[6..10] == Pad4(y);
    assert PartLen(s, 0) == 2;
    assert PartLen(s, 3) == 2;
    assert s[6..] == Pad4(y);
    assert LeadingDigits(s[6..]) == 4 by {
      var t := s[6..];
      assert t[1..][1..][1..][1..] == [];
    }
  }

  /** A matched date comes out as `MM/DD/YYYY` whose fields read back as the month,
      the day and the 2000-based year. */
  lemma NormalizeDateFields(s: string)
    requires s != [] && FindDate(s, 0).Some?
    ensures var r := NormalizeDateStr(Some(s)).value;
            var d := FindDate(s, 0).value;
            IsNormalizedDate(r) &&
            DigitsValue(r[0..2]) == d.month && DigitsValue(r[3..5]) == d.day &&
            DigitsValue(r[6..10]) == FullYear(d.year)
  {
    var d := FindDate(s, 0).value;
    assert NormalizeDateStr(Some(s)).value == FormatDate(d);
    FormatDateMatches(d);
    FormatDateValues(d);
  }

  /** The year field of a normalized date: a two-digit year is put in the 2000s, and a
      three- or four-digit year is kept. */
  lemma NormalizedYear(s: string)
    requires s != [] && FindDate(s, 0).Some?
    ensures var r := NormalizeDateStr(Some(s)).value;
            var d := FindDate(s, 0).value;
            (d.year < 100 ==> DigitsValue(r[6..10]) == 2000 + d.year) &&
            (d.year >= 100 ==> DigitsValue(r[6..10]) == d.year)
  {
    NormalizeDateFields(s);
  }

  /** The three fields of a formatted date read back as its month, day and full year. */
  lemma FormatDateValues(d: DateParts)
    requires InRange(d)
    ensures var r := FormatDate(d);
            |r| == 10 &&
            DigitsValue(r[0..2]) == d.month && DigitsValue(r[3..5]) == d.day &&
            DigitsValue(r[6..10]) == FullYear(d.year)
  {
    var r := FormatDate(d);
    Pad2Value(d.month);
    Pad2Value(d.day);
    Pad4Value(FullYear(d.year));
    assert r[0..2] == Pad2(d.month);
    assert r[3..5] == Pad2(d.day);
    assert r[6..10] == Pad4(FullYear(d.year));
  }

  /** "9/5/24" becomes "09/05/2024". */
  lemma TwoDigitYearExample()
    ensures NormalizeDateStr(Some("9/5/24")) == Some("09/05/2024")
  {
    var s := "9/5/24";
    assert s[0..] == s;
    assert PartLen(s, 0) == 1;
    assert PartLen(s, 2) == 1;
    assert s[4..] == "24";
    assert LeadingDigits("24") == 2 by {
      assert "24"[1..] == "4";
      assert "4"[1..] == [];
    }
    assert s[..1] == "9" && s[2..3] == "5" && s[4..6] == "24";
    assert "24"[..1] == "2";
    assert DigitsValue("24") == 24;
    var d := DateParts(9, 5, 24);
    assert MatchHead(s) == Some(d);
    assert FindDate(s, 0) == Some(d);
    assert Pad2(9) == "09";
    assert Pad2(5) == "05";
    assert Pad4(2024) == "2024";
    assert FormatDate(d) == "09/05/2024";
  }

  /** A match at the start of a prefix of `w` is also a match at the start of `w`. */
  lemma PrefixMatch(u: string, w: string)
    requires |u| <= |w| && u == w[..|u|]
    ensures MatchHead(u).Some? ==> MatchHead(w).Some?
  {
    if MatchHead(u).Some? {
      var a := PartLen(u, 0);
      assert PartLen(w, 0) == a;
      var q := a + 1;
      var b := PartLen(u, q);
      assert PartLen(w, q) == b;
      var r := q + b + 1;
      assert LeadingDigits(u[r..]) >= 2;
      assert IsDigit(u[r..][0]) && IsDigit(u[r..][1]);
      assert u[r..][0] == w[r..][0] && u[r..][1] == w[r..][1];
      LeadingDigitsAtLeast(w[r..], 2);
    }
  }

  lemma {:induction false} NoMatchLater(s: string, p: nat, q: nat)
    requires p <= q <= |s| && FindDate(s, p).None?
    ensures FindDate(s, q).None?
    decreases q - p
  {
    if p < q {
      NoMatchLater(s, p + 1, q);
    }
  }

  /**
    `FindDate` is the leftmost match from `p`: there is none exactly when no position
    from `p` on starts one, and otherwise it is the match at a position `i` before
    which no position from `p` starts one.
   */
  lemma FindDateLeftmost(s: string, p: nat)
    requires p <= |s|
    ensures FindDate(s, p).None? <==> forall k :: p <= k <= |s| ==> MatchHead(s[k..]).None?
    ensures FindDate(s, p).Some? ==>
      exists i :: p <= i <= |s| && MatchHead(s[i..]) == FindDate(s, p) &&
        forall k :: p <= k < i ==> MatchHead(s[k..]).None?
  {
    FindDateNoneIff(s, p);
    if FindDate(s, p).Some? {
      FindDateFirst(s, p);
    }
  }

  lemma {:induction false} FindDateNoneIff(s: string, p: nat)
    requires p <= |s|
    ensures FindDate(s, p).None? <==> forall k :: p <= k <= |s| ==> MatchHead(s[k..]).None?
    decreases |s| - p
  {
    if MatchHead(s[p..]).None? && p < |s| {
      FindDateNoneIff(s, p + 1);
      assert FindDate(s, p) == FindDate(s, p + 1);
    }
  }

  lemma {:induction false} FindDateFirst(s: string, p: nat)
    requires p <= |s| && FindDate(s, p).Some?
    ensures exists i ::
              p <= i <= |s| && MatchHead(s[i..]) == FindDate(s, p) &&
              forall k :: p <= k < i ==> MatchHead(s[k..]).None?
    decreases |s| - p
  {
    if MatchHead(s[p..]).None? {
      assert p < |s| && FindDate(s, p) == FindDate(s, p + 1);
      FindDateFirst(s, p + 1);
      var i :| p + 1 <= i <= |s| && MatchHead(s[i..]) == FindDate(s, p + 1) &&
        forall k :: p + 1 <= k < i ==> MatchHead(s[k..]).None?;
      assert forall k :: p <= k < i ==> MatchHead(s[k..]).None?;
    } else {
      assert MatchHead(s[p..]) == FindDate(s, p);
    }
  }

  /** A slice of a string with no date match has none either. */
  lemma {:induction false} NoMatchInSlice(s: string, i: nat, j: nat, p: nat)
    requires i <= j <= |s| && p <= j - i
    requires FindDate(s, i + p).None?
    ensures FindDate(s[i..j], p).None?
    decreases j - i - p
  {
    var t := s[i..j];
    assert t[p..] == s[i + p..][..|t| - p];
    PrefixMatch(t[p..], s[i + p..]);
    if p < |t| {
      NoMatchInSlice(s, i, j, p + 1);
    }
  }

  lemma LeadingDigitsAtLeast(s: string, k: nat)
    requires k <= |s| && forall i :: 0 <= i < k ==> IsDigit(s[i])
    ensures LeadingDigits(s) >= k
  {
    if k > 0 {
      LeadingDigitsAtLeast(s[1..], k - 1);
    }
  }

  /** Normalising a normalised date gives it back (for every non-empty result; a
      blank input normalises to "" and "" normalises to None). */
  lemma NormalizeIdempotent(s: string)
    requires NormalizeDateStr(Some(s)).Some? && NormalizeDateStr(Some(s)).value != []
    ensures NormalizeDateStr(NormalizeDateStr(Some(s))) == NormalizeDateStr(Some(s))
  {
    if FindDate(s, 0).None? {
      NoDateIdempotent(s);
    } else {
      DateIdempotent(s);
    }
  }

  lemma NoDateIdempotent(s: string)
    requires s != [] && FindDate(s, 0).None? && Strip(s) != []
    ensures NormalizeDateStr(Some(Strip(s))) == Some(Strip(s))
  {
    var r := Strip(s);
    var i := StripStart(s);
    NoMatchLater(s, 0, i);
    NoMatchInPiece(s, i, r);
    assert FindDate(r, 0).None?;
    StripStripped(r);
    assert Strip(r) == r;
    var n := NormalizeDateStr(Some(r));
    assert n.Some? && n.value == Strip(r);
  }

  /** A piece of `s` starting at `i` holds no date when `s` has none from `i` on. */
  lemma NoMatchInPiece(s: string, i: nat, r: string)
    requires i + |r| <= |s| && r == s[i..i + |r|]
    requires FindDate(s, i).None?
    ensures FindDate(r, 0).None?
  {
    NoMatchInSlice(s, i, i + |r|, 0);
  }

  lemma DateIdempotent(s: string)
    requires s != [] && FindDate(s, 0).Some?
    ensures NormalizeDateStr(NormalizeDateStr(Some(s))) == NormalizeDateStr(Some(s))
  {
    var d := FindDate(s, 0).value;
    var r := FormatDate(d);
    assert NormalizeDateStr(Some(s)) == Some(r);
    FormatDateMatches(d);
    var d2 := DateParts(d.month, d.day, FullYear(d.year));
    assert r[0..] == r;
    assert FindDate(r, 0) == Some(d2);
    assert FormatDate(d2) == r;
  }

  /** The blank-input exception to idempotence. */
  lemma BlankInputExample()
    ensures NormalizeDateStr(Some("  ")) == Some("")
    ensures NormalizeDateStr(Some("")) == None
  {
    var s := "  ";
    assert s[2..] == [] && s[1..] == " " && s[0..] == s;
    assert FindDate(s, 2).None?;
    assert FindDate(s, 1).None?;
    assert FindDate(s, 0).None?;
    assert LStrip(s) == "";
  }
}
