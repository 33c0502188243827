/**
  The hybrid extractor: the table strategy's items when it finds any, the word
  strategy's otherwise, with repeated items removed: the first item of each
  (line number, item code, total) key is kept, in order.
 */
module Hybrid {
  import opened Items
  import opened TableItems
  import opened WordFlow

  /** The keys of the items of `xs`. */
  function KeySet(xs: seq<LineItem>): set<ItemKey> {
    set x | x in xs :: Key(x)
  }

  /** The dedup loop's result on `xs`: an item is kept when no kept item has its key. */
  function Dedup(xs: seq<LineItem>): (kept: seq<LineItem>)
    ensures |kept| <= |xs|
  {
    if xs == [] then []
    else
      var kept := Dedup(xs[..|xs| - 1]);
      var last := xs[|xs| - 1];
      if Key(last) in KeySet(kept) then kept else kept + [last]
  }

  predicate NoDuplicateKeys(xs: seq<LineItem>) {
    forall i, j :: 0 <= i < j < |xs| ==> Key(xs[i]) != Key(xs[j])
  }

  /** The item at `i` is the first of its key. */
  predicate IsFirstOfKey(xs: seq<LineItem>, i: nat)
    requires i < |xs|
  {
    forall j :: 0 <= j < i ==> Key(xs[j]) != Key(xs[i])
  }

  /** Reference: the items among the first `n` that are the first of their key, in order. */
  function FirstOccurrences(xs: seq<LineItem>, n: nat): seq<LineItem>
    requires n <= |xs|
  {
    if n == 0 then []
    else FirstOccurrences(xs, n - 1) + (if IsFirstOfKey(xs, n - 1) then [xs[n - 1]] else [])
  }

  lemma KeySetAppend(xs: seq<LineItem>, x: LineItem)
    ensures KeySet(xs + [x]) == KeySet(xs) + {Key(x)}
  {
    assert forall y :: y in xs + [x] <==> y in xs || y == x;
  }

  /** A key no item of `xs` has is not among the keys of `xs`. */
  lemma KeyNotInSet(xs: seq<LineItem>, k: ItemKey)
    requires forall j :: 0 <= j < |xs| ==> Key(xs[j]) != k
    ensures k !in KeySet(xs)
  {
  }

  /** Dedup keeps every key and repeats none. */
  lemma {:induction false} DedupKeys(xs: seq<LineItem>)
    ensures KeySet(Dedup(xs)) == KeySet(xs)
    ensures NoDuplicateKeys(Dedup(xs))
  {
    if xs != [] {
      var init := xs[..|xs| - 1];
      var last := xs[|xs| - 1];
      DedupKeys(init);
      assert xs == init + [last];
      KeySetAppend(init, last);
      var kept := Dedup(init);
      if Key(last) !in KeySet(kept) {
        KeySetAppend(kept, last);
        forall i | 0 <= i < |kept| ensures Key(kept[i]) != Key(last) {
          assert kept[i] in kept;
        }
      }
    }
  }

  /** Dedup is the filter that keeps the first item of each key, in order. */
  lemma {:induction false} DedupIsFirstOccurrences(xs: seq<LineItem>, n: nat)
    requires n <= |xs|
    ensures Dedup(xs[..n]) == FirstOccurrences(xs, n)
  {
    if n > 0 {
      var init := xs[..n - 1];
      assert xs[..n][..n - 1] == init;
      DedupIsFirstOccurrences(xs, n - 1);
      DedupKeys(init);
      var last := xs[n - 1];
      if IsFirstOfKey(xs, n - 1) {
        KeyNotInSet(init, Key(last));
      } else {
        var j :| 0 <= j < n - 1 && Key(xs[j]) == Key(last);
        assert init[j] in init;
      }
    }
  }

  /** Without repeated keys there is nothing to remove. */
  lemma {:induction false} DedupOfDistinct(xs: seq<LineItem>)
    requires NoDuplicateKeys(xs)
    ensures Dedup(xs) == xs
  {
    if xs != [] {
      var init := xs[..|xs| - 1];
      var last := xs[|xs| - 1];
      DedupOfDistinct(init);
      KeyNotInSet(init, Key(last));
      assert xs == init + [last];
    }
  }

  /** Deduplicating twice is deduplicating once. */
  lemma DedupIdempotent(xs: seq<LineItem>)
    ensures Dedup(Dedup(xs)) == Dedup(xs)
  {
    DedupKeys(xs);
    DedupOfDistinct(Dedup(xs));
  }

  /** `extract_line_items_hybrid` on the strategies' results. */
  function HybridItems(tableItems: seq<LineItem>, wordItems: seq<LineItem>): seq<LineItem> {
    Dedup(if tableItems != [] then tableItems else wordItems)
  }

  /** The word strategy's items are used only when the table strategy finds none, and
      the result is empty only when both are. */
  lemma HybridSource(tableItems: seq<LineItem>, wordItems: seq<LineItem>)
    ensures tableItems != [] ==> forall x :: x in HybridItems(tableItems, wordItems) ==> x in tableItems
    ensures tableItems == [] ==> forall x :: x in HybridItems(tableItems, wordItems) ==> x in wordItems
    ensures HybridItems(tableItems, wordItems) == [] <==> tableItems == [] && wordItems == []
  {
    var xs := if tableItems != [] then tableItems else wordItems;
    DedupKeys(xs);
    forall x | x in Dedup(xs) ensures x in xs {
      assert Key(x) in KeySet(Dedup(xs));
      DedupIsFirstOccurrences(xs, |xs|);
      assert xs[..|xs|] == xs;
      FirstOccurrencesIn(xs, |xs|, x);
    }
    if xs != [] {
      assert Key(xs[0]) in KeySet(xs);
    }
  }

  lemma {:induction false} FirstOccurrencesIn(xs: seq<LineItem>, n: nat, x: LineItem)
    requires n <= |xs| && x in FirstOccurrences(xs, n)
    ensures x in xs[..n]
  {
    if n > 0 {
      if x in FirstOccurrences(xs, n - 1) {
        FirstOccurrencesIn(xs, n - 1, x);
        assert xs[..n - 1] <= xs[..n];
      } else {
        assert x == xs[n - 1];
      }
    }
  }

  /** The dedup loop of `extract_line_items_hybrid`, with its `seen` set. */
  method DedupItems(items: seq<LineItem>) returns (out: seq<LineItem>)
    ensures out == Dedup(items)
  {
    var seen: set<ItemKey> := {};
    out := [];
    var i := 0;
    while i < |items|
      invariant i <= |items|
      invariant out == Dedup(items[..i]) && seen == KeySet(out)
    {
      assert items[..i + 1][..i] == items[..i];
      var it := items[i];
      var k := Key(it);
      if k in seen {
        i := i + 1;
        continue;
      }
      KeySetAppend(out, it);
      seen := seen + {k};
      out := out + [it];
      i := i + 1;
    }
    assert items[..i] == items;
  }

  /** `extract_line_items_hybrid`: the word strategy runs only when the table strategy
      finds nothing. */
  method ExtractHybrid(pages: seq<seq<seq<RawTable>>>, lines: seq<string>) returns (out: seq<LineItem>)
    ensures out == HybridItems(DocumentTableItems(pages), WordItems(lines))
  {
    var items := ExtractByTables(pages);
    if items == [] {
      items := ExtractByWords(lines);
    }
    out := DedupItems(items);
  }
}
