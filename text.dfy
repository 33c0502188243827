/**
  Python string primitives the extractor relies on: `str.strip()`, `str.split()`,
  `" ".join(...)`, `sub in s` and `s.index(sub, start)`.
  Whitespace is the ASCII whitespace of `str.isspace()`.
 */
module Text {
  import opened Wrappers

  /** Characters `str.isspace()` accepts below U+0080. */
  predicate IsSpace(c: char) {
    c == ' ' || c == '\t' || c == '\n' || c == '\r' || c == '\U{0B}' || c == '\U{0C}'
    || ('\U{1C}' <= c <= '\U{1F}')
  }

  predicate AllSpace(s: string) {
    forall i :: 0 <= i < |s| ==> IsSpace(s[i])
  }

  predicate NoSpace(s: string) {
    forall i :: 0 <= i < |s| ==> !IsSpace(s[i])
  }

  /** No whitespace at either end. */
  predicate IsStripped(s: string) {
    s == [] || (!IsSpace(s[0]) && !IsSpace(s[|s| - 1]))
  }

  function LStrip(s: string): (r: string)
    ensures |r| <= |s|
    ensures AllSpace(s[..|s| - |r|])
    ensures r == [] || !IsSpace(r[0])
  {
    if s != [] && IsSpace(s[0]) then LStrip(s[1..]) else s
  }

  function RStrip(s: string): (r: string)
    ensures |r| <= |s|
    ensures AllSpace(s[|r|..])
    ensures r == [] || !IsSpace(r[|r| - 1])
  {
    if s != [] && IsSpace(s[|s| - 1]) then RStrip(s[..|s| - 1]) else s
  }

  /** `s.lstrip()` is a suffix of `s`. */
  lemma {:induction false} LStripSuffix(s: string)
    ensures LStrip(s) == s[|s| - |LStrip(s)|..]
  {
    if s != [] && IsSpace(s[0]) {
      LStripSuffix(s[1..]);
    }
  }

  /** `s.rstrip()` is a prefix of `s`. */
  lemma {:induction false} RStripPrefix(s: string)
    ensures RStrip(s) == s[..|RStrip(s)|]
  {
    if s != [] && IsSpace(s[|s| - 1]) {
      RStripPrefix(s[..|s| - 1]);
    }
  }

  /** `s.strip()`: the slice of `s` left once the whitespace at both ends is removed. */
  function Strip(s: string): (r: string)
    ensures IsStripped(r)
  {
    RStripPrefix(LStrip(s));
    RStrip(LStrip(s))
  }

  /** Where the stripped text starts in `s`: only whitespace is cut on either side. */
  function StripStart(s: string): (i: nat)
    ensures i + |Strip(s)| <= |s| && Strip(s) == s[i..i + |Strip(s)|]
    ensures AllSpace(s[..i]) && AllSpace(s[i + |Strip(s)|..])
  {
    var l := LStrip(s);
    var i := |s| - |l|;
    var r := RStrip(l);
    LStripSuffix(s);
    RStripPrefix(l);
    assert Strip(s) == r && i + |r| <= |s|;
    assert r == s[i..i + |r|] by {
      assert l == s[i..] && r == l[..|r|];
    }
    assert AllSpace(s[i + |r|..]) by {
      assert s[i + |r|..] == l[|r|..];
    }
    i
  }

  lemma StripStripped(s: string)
    requires IsStripped(s)
    ensures Strip(s) == s
  {
  }

  /** Length of the run of non-whitespace characters that starts `s`. */
  function TokenLen(s: string): (n: nat)
    ensures n <= |s| && NoSpace(s[..n])
    ensures n == |s| || IsSpace(s[n])
  {
    if s == [] || IsSpace(s[0]) then 0
    else
      var n := 1 + TokenLen(s[1..]);
      assert s[..n] == [s[0]] + s[1..][..n - 1];
      n
  }

  /** `s.split()`: the maximal runs of non-whitespace characters, in order. */
  function Split(s: string): seq<string>
    decreases |s|
  {
    if s == [] then []
    else if IsSpace(s[0]) then Split(s[1..])
    else
      var n := TokenLen(s);
      [s[..n]] + Split(s[n..])
  }

  /** `sep.join(parts)`. */
  function Join(sep: string, parts: seq<string>): string {
    if parts == [] then ""
    else if |parts| == 1 then parts[0]
    else parts[0] + sep + Join(sep, parts[1..])
  }

  predicate AreWords(parts: seq<string>) {
    forall k :: 0 <= k < |parts| ==> parts[k] != [] && NoSpace(parts[k])
  }

  /** Every token of `s.split()` is a non-empty run without whitespace. */
  lemma {:induction false} SplitWords(s: string)
    ensures AreWords(Split(s))
    decreases |s|
  {
    if s != [] {
      if IsSpace(s[0]) {
        SplitWords(s[1..]);
      } else {
        var n := TokenLen(s);
        SplitWords(s[n..]);
        var r := Split(s);
        assert r == [s[..n]] + Split(s[n..]);
        assert n > 0;
        forall k | 0 <= k < |r| ensures r[k] != [] && NoSpace(r[k]) {
          if k > 0 {
            assert r[k] == Split(s[n..])[k - 1];
          }
        }
      }
    }
  }

  lemma {:induction false} TokenLenOfWord(w: string, t: string)
    requires NoSpace(w)
    requires t == [] || IsSpace(t[0])
    ensures TokenLen(w + t) == |w|
    decreases |w|
  {
    if w != [] {
      assert (w + t)[1..] == w[1..] + t;
      TokenLenOfWord(w[1..], t);
    }
  }

  /** Splitting a word followed by whitespace (or nothing) yields that word first. */
  lemma SplitWordThen(w: string, t: string)
    requires w != [] && NoSpace(w)
    requires t == [] || IsSpace(t[0])
    ensures Split(w + t) == [w] + Split(t)
  {
    TokenLenOfWord(w, t);
    assert (w + t)[..|w|] == w;
    assert (w + t)[|w|..] == t;
  }

  /** Leading whitespace does not change the words. */
  lemma {:induction false} SplitSkipsSpaces(s: string, k: nat)
    requires k <= |s| && AllSpace(s[..k])
    ensures Split(s) == Split(s[k..])
    decreases k
  {
    if k > 0 {
      assert IsSpace(s[0]);
      assert s[1..][..k - 1] == s[1..k];
      SplitSkipsSpaces(s[1..], k - 1);
      assert s[1..][k - 1..] == s[k..];
    }
  }

  lemma SplitOfSpaces(s: string)
    requires AllSpace(s)
    ensures Split(s) == []
  {
    SplitSkipsSpaces(s, |s|);
  }

  /**
    The words of a string that starts with a non-blank character `c`: `c` is glued to
    the first word of the rest, unless the rest starts a new word.
   */
  lemma SplitCons(c: char, t: string)
    requires !IsSpace(c)
    ensures Split([c] + t) ==
      if t == [] || IsSpace(t[0]) then [[c]] + Split(t)
      else [[c] + Split(t)[0]] + Split(t)[1..]
  {
    var s := [c] + t;
    assert s[1..] == t;
    var n := TokenLen(t);
    assert TokenLen(s) == 1 + n;
    assert s[..1 + n] == [c] + t[..n];
    assert s[1 + n..] == t[n..];
  }

  /** Splitting undoes joining with single spaces. */
  lemma {:induction false} SplitJoin(parts: seq<string>)
    requires AreWords(parts)
    ensures Split(Join(" ", parts)) == parts
    decreases |parts|
  {
    if parts == [] {
    } else if |parts| == 1 {
      SplitWordThen(parts[0], []);
      assert parts[0] + [] == parts[0];
    } else {
      var rest := Join(" ", parts[1..]);
      SplitJoin(parts[1..]);
      assert parts[0] + " " + rest == parts[0] + (" " + rest);
      SplitWordThen(parts[0], " " + rest);
      assert (" " + rest)[1..] == rest;
      assert Split(" " + rest) == Split(rest);
      assert [parts[0]] + parts[1..] == parts;
    }
  }

  /** Strings with the same words that both do or both do not start a word keep that
      agreement after a common non-blank first character. */
  lemma SplitConsCongruent(c: char, t1: string, t2: string)
    requires !IsSpace(c)
    requires Split(t1) == Split(t2)
    requires (t1 == [] || IsSpace(t1[0])) == (t2 == [] || IsSpace(t2[0]))
    ensures Split([c] + t1) == Split([c] + t2)
  {
    SplitCons(c, t1);
    SplitCons(c, t2);
  }

  /** Trailing whitespace does not change the words. */
  lemma {:induction false} SplitIgnoresTrailingSpaces(y: string, sp: string)
    requires AllSpace(sp)
    ensures Split(y + sp) == Split(y)
    decreases |y|
  {
    if y == [] {
      assert y + sp == sp;
      SplitOfSpaces(sp);
    } else if IsSpace(y[0]) {
      assert (y + sp)[1..] == y[1..] + sp;
      SplitIgnoresTrailingSpaces(y[1..], sp);
    } else {
      SplitIgnoresTrailingSpaces(y[1..], sp);
      assert y + sp == [y[0]] + (y[1..] + sp);
      assert y == [y[0]] + y[1..];
      SplitConsCongruent(y[0], y[1..] + sp, y[1..]);
    }
  }

  /** `s.strip().split() == s.split()`. */
  lemma SplitStrip(s: string)
    ensures Split(Strip(s)) == Split(s)
  {
    var i := StripStart(s);
    var n := |Strip(s)|;
    SplitSkipsSpaces(s, i);
    SuffixAt(s, i, n);
    SplitIgnoresTrailingSpaces(s[i..i + n], s[i + n..]);
  }

  /** A suffix is its first `n` characters followed by the rest. */
  lemma SuffixAt(s: string, i: nat, n: nat)
    requires i + n <= |s|
    ensures s[i..] == s[i..i + n] + s[i + n..]
  {
  }

  /** Length of the whitespace run that starts `s`. */
  function SpaceLen(s: string): (n: nat)
    ensures n <= |s| && AllSpace(s[..n])
    ensures n == |s| || !IsSpace(s[n])
  {
    if s == [] || !IsSpace(s[0]) then 0
    else
      var n := 1 + SpaceLen(s[1..]);
      assert s[..n] == [s[0]] + s[1..][..n - 1];
      n
  }

  /** `re.sub(r"\s+", " ", s)`: every whitespace run becomes a single space. */
  function SubSpaces(s: string): string
    decreases |s|
  {
    if s == [] then []
    else if IsSpace(s[0]) then " " + SubSpaces(s[SpaceLen(s)..])
    else
      var n := TokenLen(s);
      s[..n] + SubSpaces(s[n..])
  }

  /** `re.sub(r"\s+", " ", s).strip()`. */
  function CollapseSpaces(s: string): string {
    Strip(SubSpaces(s))
  }

  /** A space where `s` starts with whitespace. */
  function LeadSpace(s: string): string {
    if s != [] && IsSpace(s[0]) then " " else ""
  }

  /** A space where `s` has a word and ends with whitespace. */
  function TrailSpace(s: string): string {
    if Split(s) != [] && IsSpace(s[|s| - 1]) then " " else ""
  }

  /** Substituting runs leaves the words joined by single spaces, with one space at
      each end that had whitespace. */
  lemma {:induction false} SubSpacesShape(s: string)
    ensures SubSpaces(s) == LeadSpace(s) + Join(" ", Split(s)) + TrailSpace(s)
    decreases |s|
  {
    if s == [] {
    } else if IsSpace(s[0]) {
      var r := s[SpaceLen(s)..];
      SubSpacesShape(r);
      SubSpacesAfterSpaces(s);
    } else {
      var r := s[TokenLen(s)..];
      SubSpacesShape(r);
      SubSpacesAfterWord(s);
    }
  }

  lemma SubSpacesAfterSpaces(s: string)
    requires s != [] && IsSpace(s[0])
    requires var r := s[SpaceLen(s)..];
             SubSpaces(r) == LeadSpace(r) + Join(" ", Split(r)) + TrailSpace(r)
    ensures SubSpaces(s) == LeadSpace(s) + Join(" ", Split(s)) + TrailSpace(s)
  {
    var k := SpaceLen(s);
    var r := s[k..];
    var j := Join(" ", Split(r));
    var t := TrailSpace(r);
    assert SubSpaces(r) == j + t by {
      assert LeadSpace(r) == "";
      assert "" + j + t == j + t;
    }
    assert SubSpaces(s) == " " + (j + t);
    TrailSpaceAfterSpaces(s);
    assert LeadSpace(s) == " ";
    ConcatAssoc(" ", [], j, t);
    assert " " + [] == " ";
  }

  /** Dropping a leading whitespace run keeps the words and the trailing space. */
  lemma TrailSpaceAfterSpaces(s: string)
    requires s != [] && IsSpace(s[0])
    ensures Split(s) == Split(s[SpaceLen(s)..])
    ensures TrailSpace(s) == TrailSpace(s[SpaceLen(s)..])
  {
    var k := SpaceLen(s);
    var r := s[k..];
    SplitSkipsSpaces(s, k);
    if r != [] {
      assert s[|s| - 1] == r[|r| - 1];
    }
  }

  lemma ConcatAssoc(a: string, b: string, c: string, d: string)
    ensures a + (b + c + d) == a + b + c + d
  {
  }

  lemma SubSpacesAfterWord(s: string)
    requires s != [] && !IsSpace(s[0])
    requires var r := s[TokenLen(s)..];
             SubSpaces(r) == LeadSpace(r) + Join(" ", Split(r)) + TrailSpace(r)
    ensures SubSpaces(s) == LeadSpace(s) + Join(" ", Split(s)) + TrailSpace(s)
  {
    var n := TokenLen(s);
    var w := s[..n];
    var r := s[n..];
    var j := Join(" ", Split(r));
    var tr := TrailSpace(r);
    var ws := [w] + Split(r);
    var ts := TrailSpace(s);
    assert SubSpaces(s) == w + SubSpaces(r);
    assert LeadSpace(s) == "";
    assert Split(s) == ws by {
      SliceAt(s, n);
      SplitWordThen(w, r);
    }
    var js := Join(" ", ws);
    if r == [] {
      assert js == w && ts == "";
      EmptyConcat(w);
    } else if Split(r) == [] {
      assert IsSpace(r[|r| - 1]) by {
        if !IsSpace(r[|r| - 1]) {
          NonSpaceHasWord(r, |r| - 1);
        }
      }
      assert ts == " " by {
        assert s[|s| - 1] == r[|r| - 1];
      }
      assert SubSpaces(r) == " " by {
        assert LeadSpace(r) == " " && tr == "" && j == "";
      }
      assert js == w by {
        assert ws == [w];
      }
      assert SubSpaces(s) == js + ts;
    } else {
      assert SubSpaces(r) == " " + j + tr by {
        assert LeadSpace(r) == " ";
      }
      assert ts == tr by {
        assert s[|s| - 1] == r[|r| - 1];
      }
      assert js == w + " " + j by {
        assert ws[1..] == Split(r);
      }
      ConcatAssoc(w, " ", j, tr);
      assert SubSpaces(s) == js + ts;
    }
    assert LeadSpace(s) + js == js by {
      EmptyConcat(js);
    }
  }

  lemma LStripPastSpace(x: string)
    requires x == [] || !IsSpace(x[0])
    ensures LStrip(x) == x && LStrip(" " + x) == x
  {
    assert (" " + x)[1..] == x;
  }

  lemma RStripBeforeSpace(x: string)
    requires x == [] || !IsSpace(x[|x| - 1])
    ensures RStrip(x) == x && RStrip(x + " ") == x
  {
    assert (x + " ")[..|x|] == x;
  }

  lemma SliceAt(s: string, n: nat)
    requires n <= |s|
    ensures s == s[..n] + s[n..]
  {
  }

  lemma EmptyConcat(a: string)
    ensures a + "" == a && "" + a == a
  {
  }

  /** A non-whitespace character means `s` has a word. */
  lemma {:induction false} NonSpaceHasWord(s: string, i: nat)
    requires i < |s| && !IsSpace(s[i])
    ensures Split(s) != []
    decreases |s|
  {
    if IsSpace(s[0]) {
      NonSpaceHasWord(s[1..], i - 1);
    }
  }

  /** Words joined by single spaces have no whitespace at either end. */
  lemma {:induction false} JoinWordsStripped(parts: seq<string>)
    requires AreWords(parts)
    ensures IsStripped(Join(" ", parts))
    ensures parts != [] ==> Join(" ", parts) != []
    decreases |parts|
  {
    if |parts| > 1 {
      JoinWordsStripped(parts[1..]);
      var rest := Join(" ", parts[1..]);
      assert Join(" ", parts) == parts[0] + " " + rest;
    }
  }

  /** Collapsing whitespace is `" ".join(s.split())`. */
  lemma CollapseIsJoinedWords(s: string)
    ensures CollapseSpaces(s) == Join(" ", Split(s))
  {
    SubSpacesShape(s);
    SplitWords(s);
    var j := Join(" ", Split(s));
    JoinWordsStripped(Split(s));
    var lead := LeadSpace(s);
    var trail := TrailSpace(s);
    var x := j + trail;
    assert x == [] || !IsSpace(x[0]) by {
      if j == [] {
        assert trail == [];
        EmptyConcat(trail);
      }
    }
    assert LStrip(lead + x) == x by {
      LStripPastSpace(x);
      if lead == "" {
        EmptyConcat(x);
      }
    }
    assert RStrip(x) == j by {
      RStripBeforeSpace(j);
      if trail == "" {
        EmptyConcat(j);
      }
    }
    assert SubSpaces(s) == lead + x by {
      ConcatAssoc(lead, [], j, trail);
      EmptyConcat(lead);
      EmptyConcat(j);
    }
  }

  /** `pat` occurs in `s` at index `i`. */
  predicate OccursAt(s: string, pat: string, i: nat) {
    i + |pat| <= |s| && s[i..i + |pat|] == pat
  }

  /** `pat in s`. */
  predicate Contains(s: string, pat: string) {
    exists i :: 0 <= i <= |s| && OccursAt(s, pat, i)
  }

  /** `s.find(pat, from)` as an option: the first occurrence at or after `from`. */
  function IndexOfFrom(s: string, pat: string, from: nat): (r: Option<nat>)
    ensures r.Some? ==> from <= r.value && OccursAt(s, pat, r.value)
    ensures r.Some? ==> forall i :: from <= i < r.value ==> !OccursAt(s, pat, i)
    ensures r.None? ==> forall i :: from <= i ==> !OccursAt(s, pat, i)
    decreases |s| - from
  {
    if from + |pat| > |s| then None
    else if OccursAt(s, pat, from) then Some(from)
    else IndexOfFrom(s, pat, from + 1)
  }

  lemma ContainsIndex(s: string, pat: string)
    ensures Contains(s, pat) <==> IndexOfFrom(s, pat, 0).Some?
  {
    var r := IndexOfFrom(s, pat, 0);
    if r.Some? {
      assert OccursAt(s, pat, r.value);
    }
  }
}
