/**
  The word strategy of the line-item extractor: the page text, read as visual lines,
  is walked top to bottom.  An item-start line opens an item (its missing prices are
  looked for in the next few lines), description-like lines that follow add up to
  three description parts, and the first summary line ends the walk.
 */
module WordFlow {
  import opened Wrappers
  import opened Text
  import opened Tokens
  import opened Items

  /** An item while it is being read: the fields the item line gives, `None` where
      `_parse_item_row_tokens` found nothing. */
  datatype Draft = Draft(
    lineNo: string,
    itemId: string,
    qty: Option<string>,
    unitPrice: Option<string>,
    total: Option<string>)

  /** `_parse_item_row_tokens`: line number and item code are the first two tokens; the
      quantity is the first quantity-shaped token after them; the total is the last
      money token after them and the unit price the money token before that one. */
  function ParseItemRowTokens(tokens: seq<string>): (d: Draft)
    requires |tokens| >= 2
    ensures d.lineNo == tokens[0] && d.itemId == tokens[1]
    ensures d.qty.Some? ==> IsQty(d.qty.value)
    ensures d.unitPrice.Some? ==> IsMoney(d.unitPrice.value)
    ensures d.total.Some? ==> IsMoney(d.total.value)
  {
    var after := tokens[2..];
    var qty := match FirstQtyIndex(after, 0) case None => None case Some(k) => Some(after[k]);
    match LastMoneyBefore(after, |after|)
    case None => Draft(tokens[0], tokens[1], qty, None, None)
    case Some(i) =>
      var unit := match LastMoneyBefore(after, i) case None => None case Some(j) => Some(after[j]);
      Draft(tokens[0], tokens[1], qty, unit, Some(after[i]))
  }

  /** The prices of a parsed item row read off its money list: the total is the last
      money token after the code, the unit price the one before it. */
  lemma ParsedPrices(tokens: seq<string>)
    requires |tokens| >= 2
    ensures var d := ParseItemRowTokens(tokens);
            var m := MoneyTokens(tokens[2..]);
            (d.total.None? <==> m == []) &&
            (m != [] ==> d.total == Some(m[|m| - 1])) &&
            (d.unitPrice.None? <==> |m| < 2) &&
            (|m| >= 2 ==> d.unitPrice == Some(m[|m| - 2]))
  {
    var after := tokens[2..];
    assert after[..|after|] == after;
    MoneyTokensAtLast(after, |after|);
    match LastMoneyBefore(after, |after|)
    case None =>
    case Some(i) =>
      MoneyTokensAtLast(after, i);
      assert after[..i][..i] == after[..i];
  }

  /** The quantity of a parsed item row is the first quantity-shaped token after the
      code, and is missing exactly when there is none. */
  lemma ParsedQty(tokens: seq<string>)
    requires |tokens| >= 2
    ensures var d := ParseItemRowTokens(tokens);
            (d.qty.None? <==> forall k :: 2 <= k < |tokens| ==> !IsQty(tokens[k])) &&
            (d.qty.Some? ==> exists k :: 2 <= k < |tokens| && d.qty.value == tokens[k] && IsQty(tokens[k]) &&
                                         forall j :: 2 <= j < k ==> !IsQty(tokens[j]))
  {
    var after := tokens[2..];
    assert forall k :: 2 <= k < |tokens| ==> tokens[k] == after[k - 2];
    var q := FirstQtyIndex(after, 0);
    if q.Some? {
      var k := q.value + 2;
      assert tokens[k] == after[q.value];
      assert forall j :: 2 <= j < k ==> tokens[j] == after[j - 2];
    }
  }

  /** What the walk reads off one visual line: its stripped text, whether it is a
      summary line or an item-start line, its tokens, its money tokens and whether a
      token of it is description-like. */
  datatype LineView = LineView(
    text: string,
    summary: bool,
    start: bool,
    tokens: seq<string>,
    money: seq<string>,
    wordy: bool)

  function LineViewOf(line: string): LineView {
    var t := Strip(line);
    var toks := Split(t);
    LineView(t, IsSummaryLine(t), IsItemStart(t), toks, MoneyTokens(toks), HasWordy(toks))
  }

  /** The view of each visual line, in order. */
  function LineViews(lines: seq<string>): (vs: seq<LineView>)
    ensures |vs| == |lines|
  {
    if lines == [] then [] else [LineViewOf(lines[0])] + LineViews(lines[1..])
  }

  lemma {:induction false} LineViewsAt(lines: seq<string>, k: nat)
    requires k < |lines|
    ensures LineViews(lines)[k] == LineViewOf(lines[k])
  {
    if k > 0 {
      LineViewsAt(lines[1..], k - 1);
    }
  }

  lemma {:induction false} LineViewsPrefix(lines: seq<string>, k: nat)
    requires k <= |lines|
    ensures LineViews(lines[..k]) == LineViews(lines)[..k]
  {
    var a := LineViews(lines[..k]);
    var b := LineViews(lines)[..k];
    forall i | 0 <= i < k
      ensures a[i] == b[i]
    {
      LineViewsAt(lines[..k], i);
      LineViewsAt(lines, i);
    }
  }

  /**
    The look-ahead for missing prices, at the `j`-th line after the item line `i`
    (j = 1 to 4): it stops at the end of the text, at an item-start line or at a
    summary line; a line with money fills a missing total with its last money token
    and, when it has two or more, a missing unit price with the one before.
   */
  function Backfill(vs: seq<LineView>, i: nat, d: Draft, j: nat): (r: Draft)
    requires 1 <= j <= 5
    ensures r.lineNo == d.lineNo && r.itemId == d.itemId && r.qty == d.qty
    ensures d.total.Some? ==> r.total == d.total
    ensures d.unitPrice.Some? ==> r.unitPrice == d.unitPrice
    decreases 5 - j
  {
    if j > 4 || i + j >= |vs| then d
    else
      var v := vs[i + j];
      if v.start || v.summary then d
      else
        var m := v.money;
        var d1 := if m != [] && d.total.None? then d.(total := Some(m[|m| - 1])) else d;
        var d2 := if m != [] && |m| >= 2 && d1.unitPrice.None? then d1.(unitPrice := Some(m[|m| - 2])) else d1;
        Backfill(vs, i, d2, j + 1)
  }

  /** Reference for the look-ahead: the `n`-th money token from the end of the first
      line of the window (from the `j`-th line after line `i`) that has at least `n`. */
  function WindowMoney(vs: seq<LineView>, i: nat, j: nat, n: nat): Option<string>
    requires 1 <= j <= 5 && 1 <= n
    decreases 5 - j
  {
    if j > 4 || i + j >= |vs| || vs[i + j].start || vs[i + j].summary then None
    else if |vs[i + j].money| >= n then Some(vs[i + j].money[|vs[i + j].money| - n])
    else WindowMoney(vs, i, j + 1, n)
  }

  /** A price the item line gave is kept; a missing total becomes the last money
      token of the first window line with money, a missing unit price the
      next-to-last money token of the first window line with two; nothing else changes. */
  lemma {:induction false} BackfillFields(vs: seq<LineView>, i: nat, d: Draft, j: nat)
    requires 1 <= j <= 5
    ensures var r := Backfill(vs, i, d, j);
            r.lineNo == d.lineNo && r.itemId == d.itemId && r.qty == d.qty &&
            r.total == (if d.total.Some? then d.total else WindowMoney(vs, i, j, 1)) &&
            r.unitPrice == (if d.unitPrice.Some? then d.unitPrice else WindowMoney(vs, i, j, 2))
    decreases 5 - j
  {
    if !(j > 4 || i + j >= |vs|) && !(vs[i + j].start || vs[i + j].summary) {
      var m := vs[i + j].money;
      var d1 := if m != [] && d.total.None? then d.(total := Some(m[|m| - 1])) else d;
      var d2 := if m != [] && |m| >= 2 && d1.unitPrice.None? then d1.(unitPrice := Some(m[|m| - 2])) else d1;
      BackfillFields(vs, i, d2, j + 1);
    }
  }

  /** An item after its description parts are collected. */
  datatype RawItem = RawItem(draft: Draft, parts: seq<string>)

  /** `flush()`: the item being read, if any, joins the finished ones. */
  function Flush(done: seq<RawItem>, cur: Option<RawItem>): seq<RawItem> {
    if cur.Some? then done + [cur.value] else done
  }

  /** The item the item-start line `i` opens: the fields its tokens give, with the
      missing prices looked for in the lines below, and no description parts yet. */
  function Opened(vs: seq<LineView>, i: nat): RawItem
    requires i < |vs| && |vs[i].tokens| >= 2
  {
    var d := ParseItemRowTokens(vs[i].tokens);
    RawItem(if d.unitPrice.None? || d.total.None? then Backfill(vs, i, d, 1) else d, [])
  }

  /** The walk from line `i`, with the finished items `done` and the item being read. */
  function WordRun(vs: seq<LineView>, i: nat, done: seq<RawItem>, cur: Option<RawItem>): seq<RawItem>
    requires i <= |vs|
    decreases |vs| - i
  {
    if i == |vs| then Flush(done, cur)
    else
      var v := vs[i];
      if v.summary then Flush(done, cur)
      else if v.start then
        if |v.tokens| >= 2 then WordRun(vs, i + 1, Flush(done, cur), Some(Opened(vs, i)))
        else WordRun(vs, i + 1, Flush(done, cur), None)
      else if cur.Some? && v.wordy && |cur.value.parts| < 3 then
        WordRun(vs, i + 1, done, Some(cur.value.(parts := cur.value.parts + [v.text])))
      else WordRun(vs, i + 1, done, cur)
  }

  function OrEmpty(x: Option<string>): string {
    if x.Some? then x.value else ""
  }

  /** An item as the extractor returns it: missing fields become "" and the
      description is the parts joined by spaces, stripped. */
  function Finish(r: RawItem): LineItem {
    LineItem(r.draft.lineNo, r.draft.itemId, OrEmpty(r.draft.qty), OrEmpty(r.draft.unitPrice),
             OrEmpty(r.draft.total), Strip(Join(" ", r.parts)))
  }

  /** The cleaning pass: items without an item code are dropped. */
  function CleanItems(raw: seq<RawItem>): (items: seq<LineItem>)
    ensures |items| <= |raw|
    ensures forall k :: 0 <= k < |items| ==> items[k].itemId != ""
  {
    if raw == [] then []
    else
      var last := raw[|raw| - 1];
      CleanItems(raw[..|raw| - 1]) + (if last.draft.itemId == "" then [] else [Finish(last)])
  }

  /** The items the word strategy finds in the visual lines. */
  function WordItems(lines: seq<string>): seq<LineItem> {
    CleanItems(WordRun(LineViews(lines), 0, [], None))
  }

  // ----- properties of the walk -----

  /** What reading a line guarantees about its view. */
  predicate WellRead(v: LineView) {
    v.tokens == Split(v.text) && AreWords(v.tokens) && v.wordy == HasWordy(v.tokens) &&
    (v.start ==> !v.summary && |v.tokens| >= 2 && IsDigitString(v.tokens[0]) && |v.tokens[0]| <= 4)
  }

  lemma LineViewWellRead(line: string)
    ensures WellRead(LineViewOf(line))
  {
    var t := Strip(line);
    SplitWords(t);
    if IsItemStart(t) {
      ItemStartTokens(t);
      ItemStartIsNotSummary(t);
    }
  }

  lemma LineViewsWellRead(lines: seq<string>)
    ensures forall k :: 0 <= k < |lines| ==> WellRead(LineViews(lines)[k])
  {
    forall k | 0 <= k < |lines|
      ensures WellRead(LineViews(lines)[k])
    {
      LineViewsAt(lines, k);
      LineViewWellRead(lines[k]);
    }
  }

  /** An item the walk produces: a line number of one to four digits, a non-empty item
      code without whitespace, and at most three description parts, each with a
      description-like token. */
  predicate RawShaped(r: RawItem) {
    IsDigitString(r.draft.lineNo) && |r.draft.lineNo| <= 4 &&
    r.draft.itemId != [] && NoSpace(r.draft.itemId) &&
    |r.parts| <= 3 && forall p :: p in r.parts ==> HasWordy(Split(p))
  }

  lemma {:induction false} WordRunShaped(vs: seq<LineView>, i: nat, done: seq<RawItem>, cur: Option<RawItem>)
    requires i <= |vs|
    requires forall k :: 0 <= k < |vs| ==> WellRead(vs[k])
    requires forall r :: r in done ==> RawShaped(r)
    requires cur.Some? ==> RawShaped(cur.value)
    ensures forall r :: r in WordRun(vs, i, done, cur) ==> RawShaped(r)
    decreases |vs| - i
  {
    if i < |vs| && !vs[i].summary {
      var v := vs[i];
      assert WellRead(v);
      if v.start {
        FlushShaped(done, cur);
        StartShaped(vs, i);
        WordRunShaped(vs, i + 1, Flush(done, cur), Some(Opened(vs, i)));
      } else if cur.Some? && v.wordy && |cur.value.parts| < 3 {
        PartShaped(cur.value, v.text);
        WordRunShaped(vs, i + 1, done, Some(cur.value.(parts := cur.value.parts + [v.text])));
      } else {
        WordRunShaped(vs, i + 1, done, cur);
      }
    }
  }

  lemma FlushShaped(done: seq<RawItem>, cur: Option<RawItem>)
    requires forall r :: r in done ==> RawShaped(r)
    requires cur.Some? ==> RawShaped(cur.value)
    ensures forall r :: r in Flush(done, cur) ==> RawShaped(r)
  {
  }

  /** The item an item-start line opens is well shaped, whatever the backfill finds. */
  lemma StartShaped(vs: seq<LineView>, i: nat)
    requires i < |vs| && WellRead(vs[i]) && vs[i].start
    ensures RawShaped(Opened(vs, i))
  {
    BackfillFields(vs, i, ParseItemRowTokens(vs[i].tokens), 1);
  }

  /** A wordy continuation line added to an item with fewer than three parts keeps it shaped. */
  lemma PartShaped(c: RawItem, text: string)
    requires RawShaped(c) && |c.parts| < 3 && HasWordy(Split(text))
    ensures RawShaped(c.(parts := c.parts + [text]))
  {
  }

  /** The number of item-start views before the first summary view, from `i` on
      (counting only those that split into two tokens, which every real one does). */
  function CountStarts(vs: seq<LineView>, i: nat): nat
    requires i <= |vs|
    decreases |vs| - i
  {
    if i == |vs| || vs[i].summary then 0
    else (if vs[i].start && |vs[i].tokens| >= 2 then 1 else 0) + CountStarts(vs, i + 1)
  }

  lemma WordRunCount(vs: seq<LineView>, i: nat, done: seq<RawItem>, cur: Option<RawItem>)
    requires i <= |vs|
    ensures |WordRun(vs, i, done, cur)| == |done| + (if cur.Some? then 1 else 0) + CountStarts(vs, i)
  {
    WordRunHeads(vs, i, done, cur);
    StartHeadsIndexed(vs, i);
  }

  /** Cleaning keeps every item that has an item code, in order, as the finished item. */
  lemma CleanItemsKeepsCoded(raw: seq<RawItem>)
    requires forall r :: r in raw ==> r.draft.itemId != []
    ensures |CleanItems(raw)| == |raw|
    ensures forall k :: 0 <= k < |raw| ==> CleanItems(raw)[k] == Finish(raw[k])
  {
    forall k | 0 <= k < |raw| ensures raw[k].draft.itemId != [] {
      assert raw[k] in raw;
    }
    CleanItemsAllCoded(raw);
  }

  /** Every item finished, in order. */
  function FinishAll(raw: seq<RawItem>): (r: seq<LineItem>)
    ensures |r| == |raw|
  {
    seq(|raw|, k requires 0 <= k < |raw| => Finish(raw[k]))
  }

  lemma {:induction false} CleanItemsAllCoded(raw: seq<RawItem>)
    requires forall k :: 0 <= k < |raw| ==> raw[k].draft.itemId != []
    ensures CleanItems(raw) == FinishAll(raw)
  {
    if raw != [] {
      var init := raw[..|raw| - 1];
      assert forall k :: 0 <= k < |init| ==> init[k] == raw[k];
      CleanItemsAllCoded(init);
      assert FinishAll(raw) == FinishAll(init) + [Finish(raw[|raw| - 1])];
    }
  }

  /** The number of item-start lines before the first summary line, from line `i` on. */
  function CountItemStartLines(lines: seq<string>, i: nat): nat
    requires i <= |lines|
    decreases |lines| - i
  {
    if i == |lines| || IsSummaryLine(Strip(lines[i])) then 0
    else (if IsItemStart(Strip(lines[i])) then 1 else 0) + CountItemStartLines(lines, i + 1)
  }

  lemma {:induction false} CountStartsOfLines(lines: seq<string>, i: nat)
    requires i <= |lines|
    ensures CountStarts(LineViews(lines), i) == CountItemStartLines(lines, i)
    decreases |lines| - i
  {
    if i < |lines| {
      LineViewsAt(lines, i);
      LineViewWellRead(lines[i]);
      CountStartsOfLines(lines, i + 1);
    }
  }

  /** One item per item-start line before the first summary line, each with a line
      number of one to four digits, a non-empty item code and at most three
      description lines. */
  lemma WordItemsShape(lines: seq<string>)
    ensures |WordItems(lines)| == CountItemStartLines(lines, 0)
    ensures forall k :: 0 <= k < |WordItems(lines)| ==>
      IsDigitString(WordItems(lines)[k].lineNo) && |WordItems(lines)[k].lineNo| <= 4 &&
      WordItems(lines)[k].itemId != []
  {
    var vs := LineViews(lines);
    var raw := WordRun(vs, 0, [], None);
    LineViewsWellRead(lines);
    WordRunShaped(vs, 0, [], None);
    WordRunCount(vs, 0, [], None);
    CountStartsOfLines(lines, 0);
    CleanItemsKeepsCoded(raw);
    forall k | 0 <= k < |raw|
      ensures IsDigitString(WordItems(lines)[k].lineNo) && |WordItems(lines)[k].lineNo| <= 4 &&
              WordItems(lines)[k].itemId != []
    {
      assert raw[k] in raw;
    }
  }

  /** The line number and item code of each item, in order. */
  function Heads(raw: seq<RawItem>): (hs: seq<(string, string)>)
    ensures |hs| == |raw|
  {
    if raw == [] then [] else Heads(raw[..|raw| - 1]) + [Head(raw[|raw| - 1])]
  }

  function Head(r: RawItem): (string, string) {
    (r.draft.lineNo, r.draft.itemId)
  }

  lemma {:induction false} HeadsAt(raw: seq<RawItem>, m: nat)
    requires m < |raw|
    ensures Heads(raw)[m] == Head(raw[m])
  {
    if m < |raw| - 1 {
      HeadsAt(raw[..|raw| - 1], m);
    }
  }

  /** The first two tokens of each item-start view from `i` on before the first
      summary view. */
  function StartHeads(vs: seq<LineView>, i: nat): seq<(string, string)>
    requires i <= |vs|
    decreases |vs| - i
  {
    if i == |vs| || vs[i].summary then []
    else if vs[i].start && |vs[i].tokens| >= 2 then [(vs[i].tokens[0], vs[i].tokens[1])] + StartHeads(vs, i + 1)
    else StartHeads(vs, i + 1)
  }

  /** The walk opens one item per item-start line, headed by that line's first two
      tokens, after the items it already holds. */
  lemma {:induction false} WordRunHeads(vs: seq<LineView>, i: nat, done: seq<RawItem>, cur: Option<RawItem>)
    requires i <= |vs|
    ensures Heads(WordRun(vs, i, done, cur)) == Heads(Flush(done, cur)) + StartHeads(vs, i)
    decreases |vs| - i, 1
  {
    if i < |vs| && !vs[i].summary {
      var v := vs[i];
      if v.start && |v.tokens| >= 2 {
        WordRunHeadsStart(vs, i, done, cur);
      } else if v.start {
        assert WordRun(vs, i, done, cur) == WordRun(vs, i + 1, Flush(done, cur), None);
        assert StartHeads(vs, i) == StartHeads(vs, i + 1);
        WordRunHeads(vs, i + 1, Flush(done, cur), None);
      } else if cur.Some? && v.wordy && |cur.value.parts| < 3 {
        var grown := cur.value.(parts := cur.value.parts + [v.text]);
        assert WordRun(vs, i, done, cur) == WordRun(vs, i + 1, done, Some(grown));
        assert StartHeads(vs, i) == StartHeads(vs, i + 1);
        WordRunHeads(vs, i + 1, done, Some(grown));
        HeadsSnoc(done, grown);
        HeadsSnoc(done, cur.value);
      } else {
        assert WordRun(vs, i, done, cur) == WordRun(vs, i + 1, done, cur);
        assert StartHeads(vs, i) == StartHeads(vs, i + 1);
        WordRunHeads(vs, i + 1, done, cur);
      }
    } else {
      assert WordRun(vs, i, done, cur) == Flush(done, cur);
      assert StartHeads(vs, i) == [];
    }
  }

  /** An item-start line opens an item headed by its first two tokens. */
  lemma {:induction false} WordRunHeadsStart(vs: seq<LineView>, i: nat, done: seq<RawItem>, cur: Option<RawItem>)
    requires i < |vs| && !vs[i].summary && vs[i].start && |vs[i].tokens| >= 2
    ensures Heads(WordRun(vs, i, done, cur)) == Heads(Flush(done, cur)) + StartHeads(vs, i)
    decreases |vs| - i, 0
  {
    var f := Flush(done, cur);
    var started := Opened(vs, i);
    var w := WordRun(vs, i + 1, f, Some(started));
    WordRunHeads(vs, i + 1, f, Some(started));
    OpenedHead(vs, i);
    assert StartHeads(vs, i) == [Head(started)] + StartHeads(vs, i + 1);
    HeadsAfterOpen(f, started, w, StartHeads(vs, i + 1));
    assert WordRun(vs, i, done, cur) == w;
  }

  lemma HeadsAfterOpen(f: seq<RawItem>, started: RawItem, w: seq<RawItem>, later: seq<(string, string)>)
    requires Heads(w) == Heads(Flush(f, Some(started))) + later
    ensures Heads(w) == Heads(f) + ([Head(started)] + later)
  {
    HeadsSnoc(f, started);
  }

  /** The item an item-start line opens is headed by the line's first two tokens. */
  lemma OpenedHead(vs: seq<LineView>, i: nat)
    requires i < |vs| && |vs[i].tokens| >= 2
    ensures Head(Opened(vs, i)) == (vs[i].tokens[0], vs[i].tokens[1])
  {
    BackfillFields(vs, i, ParseItemRowTokens(vs[i].tokens), 1);
  }

  lemma HeadsSnoc(raw: seq<RawItem>, r: RawItem)
    ensures Heads(raw + [r]) == Heads(raw) + [Head(r)]
  {
    assert (raw + [r])[..|raw|] == raw;
  }

  /** The positions of the item-start views from `i` on before the first summary view,
      in increasing order. */
  function StartIndices(vs: seq<LineView>, i: nat): (idx: seq<nat>)
    requires i <= |vs|
    ensures |idx| == CountStarts(vs, i)
    ensures forall m :: 0 <= m < |idx| ==>
      i <= idx[m] < |vs| && vs[idx[m]].start && |vs[idx[m]].tokens| >= 2
    ensures forall m, n :: 0 <= m < n < |idx| ==> idx[m] < idx[n]
    decreases |vs| - i
  {
    if i == |vs| || vs[i].summary then []
    else if vs[i].start && |vs[i].tokens| >= 2 then [i] + StartIndices(vs, i + 1)
    else StartIndices(vs, i + 1)
  }

  lemma {:induction false} StartHeadsIndexed(vs: seq<LineView>, i: nat)
    requires i <= |vs|
    ensures var idx := StartIndices(vs, i);
            var hs := StartHeads(vs, i);
            |hs| == |idx| &&
            forall m :: 0 <= m < |idx| ==> hs[m] == (vs[idx[m]].tokens[0], vs[idx[m]].tokens[1])
    decreases |vs| - i
  {
    if i < |vs| && !vs[i].summary {
      StartHeadsIndexed(vs, i + 1);
    }
  }

  /** Items headed, in order, by the item-start views are headed by the first two
      tokens of the `m`-th item-start view. */
  lemma HeadsOfStarts(vs: seq<LineView>, raw: seq<RawItem>)
    requires Heads(raw) == StartHeads(vs, 0)
    ensures var idx := StartIndices(vs, 0);
            |raw| == |idx| &&
            forall m :: 0 <= m < |idx| ==>
              raw[m].draft.lineNo == vs[idx[m]].tokens[0] && raw[m].draft.itemId == vs[idx[m]].tokens[1]
  {
    StartHeadsIndexed(vs, 0);
    HeadsAtAll(raw, StartHeads(vs, 0));
  }

  lemma ShapedHaveCodes(raw: seq<RawItem>)
    requires forall r :: r in raw ==> RawShaped(r)
    ensures forall m :: 0 <= m < |raw| ==> raw[m].draft.itemId != []
  {
    forall m | 0 <= m < |raw| ensures raw[m].draft.itemId != [] {
      assert raw[m] in raw;
    }
  }

  lemma HeadsAtAll(raw: seq<RawItem>, hs: seq<(string, string)>)
    requires Heads(raw) == hs
    ensures |raw| == |hs| && forall m :: 0 <= m < |raw| ==> hs[m] == Head(raw[m])
  {
    forall m | 0 <= m < |raw| ensures hs[m] == Head(raw[m]) {
      HeadsAt(raw, m);
    }
  }

  /**
    Item `m` of the word strategy is headed by the first two tokens of the `m`-th
    item-start line before the first summary line: they are its line number and its
    item code.
   */
  lemma WordItemsHeads(lines: seq<string>)
    ensures var idx := StartIndices(LineViews(lines), 0);
            |WordItems(lines)| == |idx| == CountItemStartLines(lines, 0) &&
            forall m :: 0 <= m < |idx| ==>
              idx[m] < |lines| && IsItemStart(Strip(lines[idx[m]])) &&
              |Split(Strip(lines[idx[m]]))| >= 2 &&
              WordItems(lines)[m].lineNo == Split(Strip(lines[idx[m]]))[0] &&
              WordItems(lines)[m].itemId == Split(Strip(lines[idx[m]]))[1]
  {
    var vs := LineViews(lines);
    var raw := WordRun(vs, 0, [], None);
    var idx := StartIndices(vs, 0);
    LineViewsWellRead(lines);
    WordRunShaped(vs, 0, [], None);
    ShapedHaveCodes(raw);
    WordRunHeads(vs, 0, [], None);
    assert Heads(Flush([], None)) + StartHeads(vs, 0) == StartHeads(vs, 0);
    HeadsOfStarts(vs, raw);
    CountStartsOfLines(lines, 0);
    CleanItemsAllCoded(raw);
    forall m | 0 <= m < |idx|
      ensures vs[idx[m]].tokens == Split(Strip(lines[idx[m]]))
      ensures vs[idx[m]].start == IsItemStart(Strip(lines[idx[m]]))
    {
      LineViewsAt(lines, idx[m]);
    }
  }

  /** The items of the walk have at most three description parts, each with a
      description-like token. */
  lemma WordRunParts(lines: seq<string>)
    ensures forall r :: r in WordRun(LineViews(lines), 0, [], None) ==>
      |r.parts| <= 3 && forall p :: p in r.parts ==> HasWordy(Split(p))
  {
    LineViewsWellRead(lines);
    WordRunShaped(LineViews(lines), 0, [], None);
  }

  // ----- the items of the walk, in full -----

  /** The text of the description-like lines from line `k` up to the next item-start
      line, the first summary line or the end of the text. */
  function WordyLines(vs: seq<LineView>, k: nat): seq<string>
    requires k <= |vs|
    decreases |vs| - k
  {
    if k == |vs| || vs[k].summary || vs[k].start then []
    else (if vs[k].wordy then [vs[k].text] else []) + WordyLines(vs, k + 1)
  }

  /** At most the first three lines of `s`. */
  function FirstThree(s: seq<string>): seq<string> {
    if |s| <= 3 then s else s[..3]
  }

  /** Reference for a description: the first three description-like lines from line
      `k` before the next item-start or summary line. */
  function WordyParts(vs: seq<LineView>, k: nat): seq<string>
    requires k <= |vs|
  {
    FirstThree(WordyLines(vs, k))
  }

  /** The item the item-start line `k` gives: the fields its line and the look-ahead
      give, and the description lines that follow it. */
  function StartItem(vs: seq<LineView>, k: nat): RawItem
    requires k < |vs| && |vs[k].tokens| >= 2
  {
    RawItem(Opened(vs, k).draft, WordyParts(vs, k + 1))
  }

  /** Reference for the walk's items: one per item-start line from `i` on before the
      first summary line, with the fields its line and the look-ahead give and the
      description lines that follow it. */
  function StartItems(vs: seq<LineView>, i: nat): seq<RawItem>
    requires i <= |vs|
    decreases |vs| - i
  {
    if i == |vs| || vs[i].summary then []
    else if vs[i].start && |vs[i].tokens| >= 2 then
      [StartItem(vs, i)] + StartItems(vs, i + 1)
    else StartItems(vs, i + 1)
  }

  /** The item being read at line `i`, completed with the description lines still to come. */
  function Pending(vs: seq<LineView>, i: nat, cur: Option<RawItem>): seq<RawItem>
    requires i <= |vs|
  {
    if cur.None? then [] else [RawItem(cur.value.draft, FirstThree(cur.value.parts + WordyLines(vs, i)))]
  }

  /** The walk from line `i` gives the finished items, then the item being read with the
      description lines that follow, then one item per later item-start line. */
  lemma {:induction false} WordRunItems(vs: seq<LineView>, i: nat, done: seq<RawItem>, cur: Option<RawItem>)
    requires i <= |vs|
    requires cur.Some? ==> |cur.value.parts| <= 3
    ensures WordRun(vs, i, done, cur) == done + Pending(vs, i, cur) + StartItems(vs, i)
    decreases |vs| - i, 1
  {
    if i == |vs| || vs[i].summary {
      PendingAtEnd(vs, i, done, cur);
      assert WordRun(vs, i, done, cur) == Flush(done, cur);
      assert StartItems(vs, i) == [];
    } else if vs[i].start {
      WordRunItemsStart(vs, i, done, cur);
    } else {
      WordRunItemsOther(vs, i, done, cur);
    }
  }

  /** An item-start line flushes the item being read and opens its own. */
  lemma {:induction false} WordRunItemsStart(vs: seq<LineView>, i: nat, done: seq<RawItem>, cur: Option<RawItem>)
    requires i < |vs| && !vs[i].summary && vs[i].start
    requires cur.Some? ==> |cur.value.parts| <= 3
    ensures WordRun(vs, i, done, cur) == done + Pending(vs, i, cur) + StartItems(vs, i)
    decreases |vs| - i, 0
  {
    PendingAtEnd(vs, i, done, cur);
    var f := Flush(done, cur);
    if |vs[i].tokens| >= 2 {
      var o := Opened(vs, i);
      OpenUnfold(vs, i, done, cur);
      WordRunItems(vs, i + 1, f, Some(o));
      SpliceOpened(WordRun(vs, i, done, cur), done, Pending(vs, i, cur), f, [StartItem(vs, i)],
                   StartItems(vs, i + 1), StartItems(vs, i));
    } else {
      DropUnfold(vs, i, done, cur);
      WordRunItems(vs, i + 1, f, None);
      SpliceOpened(WordRun(vs, i, done, cur), done, Pending(vs, i, cur), f, [],
                   StartItems(vs, i + 1), StartItems(vs, i));
    }
  }

  /** One step of the walk and of its reference at an item-start line with fewer than
      two tokens: the item being read is flushed and none is opened. */
  lemma DropUnfold(vs: seq<LineView>, i: nat, done: seq<RawItem>, cur: Option<RawItem>)
    requires i < |vs| && !vs[i].summary && vs[i].start && |vs[i].tokens| < 2
    ensures WordRun(vs, i, done, cur) == WordRun(vs, i + 1, Flush(done, cur), None)
    ensures StartItems(vs, i) == [] + StartItems(vs, i + 1)
  {
  }

  /** One step of the walk and of its reference at an item-start line with two tokens. */
  lemma OpenUnfold(vs: seq<LineView>, i: nat, done: seq<RawItem>, cur: Option<RawItem>)
    requires i < |vs| && !vs[i].summary && vs[i].start && |vs[i].tokens| >= 2
    ensures WordRun(vs, i, done, cur) == WordRun(vs, i + 1, Flush(done, cur), Some(Opened(vs, i)))
    ensures StartItems(vs, i) == [StartItem(vs, i)] + StartItems(vs, i + 1)
    ensures Pending(vs, i + 1, Some(Opened(vs, i))) == [StartItem(vs, i)]
  {
    assert Opened(vs, i).parts + WordyLines(vs, i + 1) == WordyLines(vs, i + 1);
  }

  lemma SpliceOpened(w: seq<RawItem>, done: seq<RawItem>, p: seq<RawItem>, f: seq<RawItem>,
                     x: seq<RawItem>, later: seq<RawItem>, all: seq<RawItem>)
    requires f == done + p && w == f + x + later && all == x + later
    ensures w == done + p + all
  {
  }

  /** Any other line adds itself to the description being read when it is
      description-like and the description has fewer than three lines. */
  lemma {:induction false} WordRunItemsOther(vs: seq<LineView>, i: nat, done: seq<RawItem>, cur: Option<RawItem>)
    requires i < |vs| && !vs[i].summary && !vs[i].start
    requires cur.Some? ==> |cur.value.parts| <= 3
    ensures WordRun(vs, i, done, cur) == done + Pending(vs, i, cur) + StartItems(vs, i)
    decreases |vs| - i, 0
  {
    var v := vs[i];
    var next := if cur.Some? && v.wordy && |cur.value.parts| < 3
                then Some(cur.value.(parts := cur.value.parts + [v.text])) else cur;
    assert WordRun(vs, i, done, cur) == WordRun(vs, i + 1, done, next);
    assert StartItems(vs, i) == StartItems(vs, i + 1);
    WordRunItems(vs, i + 1, done, next);
    if cur.Some? {
      var t := if v.wordy then [v.text] else [];
      assert WordyLines(vs, i) == t + WordyLines(vs, i + 1);
      FirstThreeStep(cur.value.parts, t, WordyLines(vs, i + 1));
      assert next.value.parts == if |cur.value.parts| < 3 then cur.value.parts + t else cur.value.parts;
    }
  }

  /** Where the walk stops or a new item starts, the item being read has all its
      description lines: flushing it gives the pending item. */
  lemma PendingAtEnd(vs: seq<LineView>, i: nat, done: seq<RawItem>, cur: Option<RawItem>)
    requires i <= |vs| && (i == |vs| || vs[i].summary || vs[i].start)
    requires cur.Some? ==> |cur.value.parts| <= 3
    ensures Flush(done, cur) == done + Pending(vs, i, cur)
  {
    if cur.Some? {
      assert cur.value.parts + [] == cur.value.parts;
    }
  }

  /** One more line of at most one description part: a description with fewer than
      three lines takes it, a full one does not. */
  lemma FirstThreeStep(p: seq<string>, t: seq<string>, rest: seq<string>)
    requires |p| <= 3 && |t| <= 1
    ensures FirstThree(p + (t + rest)) == FirstThree((if |p| < 3 then p + t else p) + rest)
  {
    if |p| < 3 {
      assert p + (t + rest) == (p + t) + rest;
    } else {
      assert (p + (t + rest))[..3] == p;
    }
  }

  lemma {:induction false} StartItemsIndexed(vs: seq<LineView>, i: nat)
    requires i <= |vs|
    ensures var idx := StartIndices(vs, i);
            var its := StartItems(vs, i);
            |its| == |idx| &&
            forall m :: 0 <= m < |idx| ==> its[m] == StartItem(vs, idx[m])
    decreases |vs| - i
  {
    if i < |vs| && !vs[i].summary {
      StartItemsIndexed(vs, i + 1);
      var rest := StartIndices(vs, i + 1);
      if vs[i].start && |vs[i].tokens| >= 2 {
        var idx := StartIndices(vs, i);
        var its := StartItems(vs, i);
        assert idx == [i] + rest;
        assert its == [StartItem(vs, i)] + StartItems(vs, i + 1);
        forall m | 0 < m < |idx|
          ensures its[m] == StartItem(vs, idx[m])
        {
          assert idx[m] == rest[m - 1];
          assert its[m] == StartItems(vs, i + 1)[m - 1];
        }
      } else {
        assert StartIndices(vs, i) == rest;
        assert StartItems(vs, i) == StartItems(vs, i + 1);
      }
    }
  }

  /** Item `m` of the walk is the item the `m`-th item-start line opens, with the
      first three description-like lines that follow it before the next item-start or
      summary line. */
  lemma WordRunIndexed(vs: seq<LineView>)
    ensures var idx := StartIndices(vs, 0);
            var raw := WordRun(vs, 0, [], None);
            |raw| == |idx| &&
            forall m :: 0 <= m < |idx| ==> raw[m] == StartItem(vs, idx[m])
  {
    WordRunItems(vs, 0, [], None);
    assert [] + Pending(vs, 0, None) + StartItems(vs, 0) == StartItems(vs, 0);
    StartItemsIndexed(vs, 0);
  }

  /** The fields of an opened item: line number, code and quantity from its own line,
      and each price from its own line when given there, otherwise from the look-ahead
      window below it. */
  lemma OpenedFields(vs: seq<LineView>, i: nat)
    requires i < |vs| && |vs[i].tokens| >= 2
    ensures var d := ParseItemRowTokens(vs[i].tokens);
            var o := Opened(vs, i);
            o.parts == [] &&
            o.draft.lineNo == vs[i].tokens[0] && o.draft.itemId == vs[i].tokens[1] && o.draft.qty == d.qty &&
            o.draft.unitPrice == (if d.unitPrice.Some? then d.unitPrice else WindowMoney(vs, i, 1, 2)) &&
            o.draft.total == (if d.total.Some? then d.total else WindowMoney(vs, i, 1, 1))
  {
    BackfillFields(vs, i, ParseItemRowTokens(vs[i].tokens), 1);
  }

  /**
    Item `m` of the word strategy is the finished item of the `m`-th item-start line
    before the first summary line: that line's fields, its missing prices from the
    look-ahead, and as description the first three description-like lines below it
    before the next item-start or summary line, joined by spaces.
   */
  lemma WordItemsIndexed(lines: seq<string>)
    ensures var vs := LineViews(lines);
            var idx := StartIndices(vs, 0);
            |WordItems(lines)| == |idx| &&
            forall m :: 0 <= m < |idx| ==>
              WordItems(lines)[m] == Finish(StartItem(vs, idx[m]))
  {
    var vs := LineViews(lines);
    var raw := WordRun(vs, 0, [], None);
    LineViewsWellRead(lines);
    WordRunShaped(vs, 0, [], None);
    ShapedHaveCodes(raw);
    CleanItemsAllCoded(raw);
    WordRunIndexed(vs);
  }

  /** The look-ahead never reaches past a summary line. */
  lemma {:induction false} BackfillCut(vs: seq<LineView>, k: nat, i: nat, d: Draft, j: nat)
    requires 1 <= j <= 5 && i + j <= k < |vs| && vs[k].summary
    ensures Backfill(vs, i, d, j) == Backfill(vs[..k], i, d, j)
    decreases 5 - j
  {
    if j <= 4 && i + j < k && !vs[i + j].start && !vs[i + j].summary {
      var m := vs[i + j].money;
      var d1 := if m != [] && d.total.None? then d.(total := Some(m[|m| - 1])) else d;
      var d2 := if m != [] && |m| >= 2 && d1.unitPrice.None? then d1.(unitPrice := Some(m[|m| - 2])) else d1;
      assert vs[..k][i + j] == vs[i + j];
      BackfillCut(vs, k, i, d2, j + 1);
    }
  }

  /** The walk never reads past a summary line. */
  lemma {:induction false} WordRunCut(vs: seq<LineView>, k: nat, i: nat, done: seq<RawItem>, cur: Option<RawItem>)
    requires i <= k < |vs| && vs[k].summary
    ensures WordRun(vs, i, done, cur) == WordRun(vs[..k], i, done, cur)
    decreases |vs| - i
  {
    if i < k {
      var v := vs[i];
      assert vs[..k][i] == v;
      if !v.summary {
        if v.start {
          if |v.tokens| >= 2 {
            var d := ParseItemRowTokens(v.tokens);
            if d.unitPrice.None? || d.total.None? {
              BackfillCut(vs, k, i, d, 1);
            }
            assert Opened(vs, i) == Opened(vs[..k], i);
            WordRunCut(vs, k, i + 1, Flush(done, cur), Some(Opened(vs, i)));
          } else {
            WordRunCut(vs, k, i + 1, Flush(done, cur), None);
          }
        } else if cur.Some? && v.wordy && |cur.value.parts| < 3 {
          WordRunCut(vs, k, i + 1, done, Some(cur.value.(parts := cur.value.parts + [v.text])));
        } else {
          WordRunCut(vs, k, i + 1, done, cur);
        }
      }
    }
  }

  /** A summary line ends the walk: the lines from it on change nothing. */
  lemma WordItemsStopAtSummary(lines: seq<string>, k: nat)
    requires k < |lines| && IsSummaryLine(Strip(lines[k]))
    ensures WordItems(lines) == WordItems(lines[..k])
  {
    var vs := LineViews(lines);
    LineViewsAt(lines, k);
    WordRunCut(vs, k, 0, [], None);
    LineViewsPrefix(lines, k);
  }

  // ----- the loops -----

  /** The look-ahead loop for the item read at line `i`. */
  method BackfillLoop(vs: seq<LineView>, i: nat, d: Draft) returns (r: Draft)
    ensures r == Backfill(vs, i, d, 1)
  {
    r := d;
    var needUnit := d.unitPrice.None?;
    var needTotal := d.total.None?;
    var j := 1;
    while j <= 4
      invariant 1 <= j <= 5
      invariant Backfill(vs, i, d, 1) == Backfill(vs, i, r, j)
      invariant needTotal == r.total.None? && needUnit == r.unitPrice.None?
      decreases 5 - j
    {
      if i + j >= |vs| {
        break;
      }
      var v := vs[i + j];
      if v.start || v.summary {
        break;
      }
      var m := v.money;
      if m != [] {
        if needTotal && r.total.None? {
          r := r.(total := Some(m[|m| - 1]));
          needTotal := false;
        }
        if needUnit && |m| >= 2 && r.unitPrice.None? {
          r := r.(unitPrice := Some(m[|m| - 2]));
          needUnit := false;
        }
      }
      j := j + 1;
    }
  }

  /** The walk over the visual lines, as the extractor runs it. */
  method WordLoop(vs: seq<LineView>) returns (items: seq<RawItem>)
    ensures items == WordRun(vs, 0, [], None)
  {
    items := [];
    var current: Option<Draft> := None;
    var descParts: seq<string> := [];
    var i := 0;
    while i < |vs|
      invariant i <= |vs|
      invariant current.None? ==> descParts == []
      invariant WordRun(vs, 0, [], None) ==
                WordRun(vs, i, items, if current.Some? then Some(RawItem(current.value, descParts)) else None)
      decreases |vs| - i
    {
      var v := vs[i];
      if v.summary {
        break;
      }
      if v.start {
        if current.Some? {
          items := items + [RawItem(current.value, descParts)];
        }
        current := None;
        descParts := [];
        var tokens := v.tokens;
        if |tokens| >= 2 {
          var d := ParseItemRowTokens(tokens);
          if d.unitPrice.None? || d.total.None? {
            d := BackfillLoop(vs, i, d);
          }
          current := Some(d);
        }
        i := i + 1;
        continue;
      }
      if current.Some? && v.wordy && |descParts| < 3 {
        descParts := descParts + [v.text];
      }
      i := i + 1;
    }
    if current.Some? {
      items := items + [RawItem(current.value, descParts)];
    }
  }

  /** `extract_line_items_by_words`, given the visual lines of the document. */
  method ExtractByWords(lines: seq<string>) returns (items: seq<LineItem>)
    ensures items == WordItems(lines)
  {
    var raw := WordLoop(LineViews(lines));
    items := [];
    var k := 0;
    while k < |raw|
      invariant k <= |raw|
      invariant items == CleanItems(raw[..k])
    {
      assert raw[..k + 1][..k] == raw[..k];
      if raw[k].draft.itemId != "" {
        items := items + [Finish(raw[k])];
      }
      k := k + 1;
    }
    assert raw[..k] == raw;
  }
}
