/**
  The table strategy of the line-item extractor: each page's tables (as the PDF
  library returns them, for each table-settings variant) are cleaned, scanned row by
  row, and the first variant that yields items on a page is kept.
 */
module TableItems {
  import opened Wrappers
  import opened Text
  import opened Tokens
  import opened Items

  /** A table: rows of cells, where a whole row or a single cell may be missing. */
  type RawTable = seq<Option<seq<Option<string>>>>

  function NewlinesToSpaces(s: string): (r: string)
    ensures |r| == |s|
    ensures forall i :: 0 <= i < |s| ==> r[i] == if s[i] == '\n' then ' ' else s[i]
  {
    if s == [] then [] else [if s[0] == '\n' then ' ' else s[0]] + NewlinesToSpaces(s[1..])
  }

  /** `_clean_cell`: a missing cell is "", newlines become spaces, then strip. */
  function CleanCell(x: Option<string>): (r: string)
    ensures IsStripped(r)
    ensures forall i :: 0 <= i < |r| ==> r[i] != '\n'
  {
    if x.None? then ""
    else
      var t := NewlinesToSpaces(x.value);
      var r := Strip(t);
      assert forall k :: 0 <= k < |r| ==> r[k] != '\n' by {
        var i := StripStart(t);
        forall k | 0 <= k < |r| ensures r[k] != '\n' {
          assert r[k] == t[i + k];
        }
      }
      r
  }

  /** The rows of a table as lists of cleaned cells (`raw_row or []`). */
  function CleanRows(t: RawTable): (rows: seq<seq<string>>)
    ensures |rows| == |t|
  {
    seq(|t|, k requires 0 <= k < |t| =>
      if t[k].None? then [] else seq(|t[k].value|, j requires 0 <= j < |t[k].value| => CleanCell(t[k].value[j])))
  }

  /** `_row_has_item_signature`: a digit line number and an item code in the first two cells. */
  predicate RowHasItemSignature(cells: seq<string>) {
    |cells| >= 2 && IsDigitString(Strip(cells[0])) && IsItemId(Strip(cells[1]))
  }

  /** The whitespace-separated tokens of the cells, cell after cell. */
  function CellTokens(cs: seq<string>): seq<string> {
    if cs == [] then [] else Split(cs[0]) + CellTokens(cs[1..])
  }

  /** The stripped cells that hold at least one description-like token. */
  function DescCells(cs: seq<string>): (parts: seq<string>)
    ensures |parts| <= |cs|
    ensures forall k :: 0 <= k < |parts| ==> parts[k] != [] && IsStripped(parts[k]) && HasWordy(Split(parts[k]))
  {
    if cs == [] then []
    else if DescKept(cs[0]) then [Strip(cs[0])] + DescCells(cs[1..])
    else DescCells(cs[1..])
  }

  /** Whether a cell goes into the description: stripped, it is non-empty and holds a
      description-like token. */
  predicate DescKept(c: string) {
    Strip(c) != [] && HasWordy(Split(Strip(c)))
  }

  /** Which cells go into the description, position by position. */
  function DescMarks(cs: seq<string>): seq<bool> {
    seq(|cs|, j requires 0 <= j < |cs| => DescKept(cs[j]))
  }

  /** The positions from `k` on that are marked, in increasing order: each marked
      position and no other. */
  function MarkedIndices(marks: seq<bool>, k: nat): (idx: seq<nat>)
    requires k <= |marks|
    ensures forall m :: 0 <= m < |idx| ==> k <= idx[m] < |marks| && marks[idx[m]]
    ensures forall m, n :: 0 <= m < n < |idx| ==> idx[m] < idx[n]
    ensures forall j :: k <= j < |marks| && marks[j] ==> j in idx
    decreases |marks| - k
  {
    if k == |marks| then []
    else if marks[k] then [k] + MarkedIndices(marks, k + 1)
    else MarkedIndices(marks, k + 1)
  }

  /** The description cells are the stripped kept cells, all of them and in row order. */
  lemma DescCellsKept(cs: seq<string>)
    ensures var idx := MarkedIndices(DescMarks(cs), 0);
            |DescCells(cs)| == |idx| &&
            forall m :: 0 <= m < |idx| ==> DescCells(cs)[m] == Strip(cs[idx[m]])
  {
    DescCellsFrom(cs, 0);
  }

  lemma {:induction false} DescCellsFrom(cs: seq<string>, k: nat)
    requires k <= |cs|
    ensures var idx := MarkedIndices(DescMarks(cs), k);
            |DescCells(cs[k..])| == |idx| &&
            forall m :: 0 <= m < |idx| ==> DescCells(cs[k..])[m] == Strip(cs[idx[m]])
    decreases |cs| - k
  {
    if k < |cs| {
      var marks := DescMarks(cs);
      DescCellsFrom(cs, k + 1);
      DescCellsCons(cs, k);
      MarkedIndicesCons(marks, k);
      assert marks[k] == DescKept(cs[k]);
      StrippedAtCons(cs, k, DescKept(cs[k]), DescCells(cs[k..]), DescCells(cs[k + 1..]),
                     MarkedIndices(marks, k), MarkedIndices(marks, k + 1));
    }
  }

  /** One step of the description filter: cell `k` is kept, stripped, or dropped. */
  lemma DescCellsCons(cs: seq<string>, k: nat)
    requires k < |cs|
    ensures DescCells(cs[k..]) ==
            (if DescKept(cs[k]) then [Strip(cs[k])] else []) + DescCells(cs[k + 1..])
  {
    assert cs[k..][1..] == cs[k + 1..];
  }

  lemma MarkedIndicesCons(marks: seq<bool>, k: nat)
    requires k < |marks|
    ensures MarkedIndices(marks, k) == (if marks[k] then [k] else []) + MarkedIndices(marks, k + 1)
  {
  }

  /** If `rest` is the stripped cells at `ridx`, then adding cell `k` in front of both
      (or of neither) keeps them in step. */
  lemma StrippedAtCons(cs: seq<string>, k: nat, keep: bool, out: seq<string>, rest: seq<string>,
                       idx: seq<nat>, ridx: seq<nat>)
    requires k < |cs|
    requires |rest| == |ridx| && forall m :: 0 <= m < |ridx| ==> ridx[m] < |cs| && rest[m] == Strip(cs[ridx[m]])
    requires out == (if keep then [Strip(cs[k])] else []) + rest
    requires idx == (if keep then [k] else []) + ridx
    ensures |out| == |idx| && forall m :: 0 <= m < |idx| ==> out[m] == Strip(cs[idx[m]])
  {
    if keep {
      forall m | 0 <= m < |idx| ensures out[m] == Strip(cs[idx[m]]) {
        if m > 0 {
          assert out[m] == rest[m - 1] && idx[m] == ridx[m - 1];
        }
      }
    } else {
      assert out == rest && idx == ridx;
    }
  }

  /** The first quantity-shaped token, "" when there is none. */
  function FirstQty(toks: seq<string>): string {
    match FirstQtyIndex(toks, 0)
    case None => ""
    case Some(k) => toks[k]
  }

  /** The unit price read off the money list: the next-to-last entry, the only entry
      when there is one, "" when there is none. */
  function UnitPriceOf(money: seq<string>): string {
    if |money| >= 2 then money[|money| - 2] else if |money| == 1 then money[0] else ""
  }

  /** The total read off the money list: its last entry, "" when it is empty. */
  function TotalOf(money: seq<string>): string {
    if |money| >= 1 then money[|money| - 1] else ""
  }

  /** `_parse_item_from_table_row` (the caller only passes rows with an item signature). */
  function TableRowItem(cells: seq<string>): (it: LineItem)
    requires |cells| >= 2
    ensures it.qty == "" || IsQty(it.qty)
    ensures it.unitPrice == "" || IsMoney(it.unitPrice)
    ensures it.total == "" || IsMoney(it.total)
  {
    var toks := CellTokens(cells[2..]);
    var money := MoneyTokens(toks);
    LineItem(
      Strip(cells[0]),
      Strip(cells[1]),
      FirstQty(toks),
      UnitPriceOf(money),
      TotalOf(money),
      Strip(Join(" ", DescCells(cells[2..]))))
  }

  /** The quantity is the first quantity-shaped token, "" exactly when there is none. */
  lemma FirstQtyIsFirst(toks: seq<string>)
    ensures FirstQty(toks) == "" <==> forall i :: 0 <= i < |toks| ==> !IsQty(toks[i])
    ensures FirstQty(toks) != "" ==>
      exists k :: 0 <= k < |toks| && toks[k] == FirstQty(toks) && IsQty(toks[k]) &&
                  forall i :: 0 <= i < k ==> !IsQty(toks[i])
  {
    var r := FirstQtyIndex(toks, 0);
    if r.Some? {
      assert toks[r.value] != "";
    }
  }

  /** The total is the last money token; the unit price is the money token before it,
      or the total itself when there is only one, or "" when there is none. */
  lemma RowPricesFromMoneyIndices(toks: seq<string>)
    ensures var money := MoneyTokens(toks);
            match LastMoneyBefore(toks, |toks|)
            case None => TotalOf(money) == "" && UnitPriceOf(money) == ""
            case Some(i) =>
              TotalOf(money) == toks[i] &&
              UnitPriceOf(money) == (match LastMoneyBefore(toks, i) case None => toks[i] case Some(j) => toks[j])
  {
    assert toks[..|toks|] == toks;
    MoneyTokensAtLast(toks, |toks|);
    if LastMoneyBefore(toks, |toks|).Some? {
      PricesAtLastMoney(toks, LastMoneyBefore(toks, |toks|).value);
    }
  }

  lemma PricesAtLastMoney(toks: seq<string>, i: nat)
    requires i < |toks|
    requires MoneyTokens(toks) == MoneyTokens(toks[..i]) + [toks[i]]
    ensures TotalOf(MoneyTokens(toks)) == toks[i]
    ensures UnitPriceOf(MoneyTokens(toks)) ==
            match LastMoneyBefore(toks, i) case None => toks[i] case Some(j) => toks[j]
  {
    MoneyTokensAtLast(toks, i);
    assert toks[..i][..i] == toks[..i];
  }

  lemma StripEmptyAllSpace(s: string)
    requires Strip(s) == []
    ensures AllSpace(s)
  {
    var i := StripStart(s);
    assert s[i + |Strip(s)|..] == s[i..];
    AllSpaceOfParts(s, i);
  }

  lemma AllSpaceOfParts(s: string, n: nat)
    requires n <= |s| && AllSpace(s[..n]) && AllSpace(s[n..])
    ensures AllSpace(s)
  {
    forall k | 0 <= k < |s| ensures IsSpace(s[k]) {
      if k < n {
        assert s[k] == s[..n][k];
      } else {
        assert s[k] == s[n..][k - n];
      }
    }
  }

  /** The description is empty exactly when no cell after the first two holds a
      description-like token. */
  lemma TableRowDescriptionEmpty(cells: seq<string>)
    requires |cells| >= 2
    ensures TableRowItem(cells).description == "" <==>
            forall k :: 2 <= k < |cells| ==> !(Strip(cells[k]) != [] && HasWordy(Split(Strip(cells[k]))))
  {
    var parts := DescCells(cells[2..]);
    DescCellsEmpty(cells[2..]);
    if parts != [] {
      var j := Join(" ", parts);
      assert j[0] == parts[0][0];
      if Strip(j) == [] {
        StripEmptyAllSpace(j);
        assert false;
      }
    }
  }

  lemma {:induction false} DescCellsEmpty(cs: seq<string>)
    ensures DescCells(cs) == [] <==>
            forall k :: 0 <= k < |cs| ==> !(Strip(cs[k]) != [] && HasWordy(Split(Strip(cs[k]))))
  {
    if cs != [] {
      DescCellsEmpty(cs[1..]);
      assert forall k :: 1 <= k < |cs| ==> cs[k] == cs[1..][k - 1];
    }
  }

  /** `_line_is_desc_continuation`: a non-empty line that starts neither an item nor a
      summary and has a description-like token. */
  predicate LineIsDescContinuation(line: string) {
    line != [] && !IsItemStart(line) && !IsSummaryLine(line) && HasWordy(Split(line))
  }

  /** A line made only of quantities, money, all-caps codes and digit strings never
      continues a description. */
  lemma CodesAndNumbersDoNotContinue(line: string)
    requires forall k :: 0 <= k < |Split(line)| ==>
      var t := Split(line)[k];
      IsQty(t) || IsMoney(t) || IsCapsOrSlash(t) || IsDigitString(t)
    ensures !LineIsDescContinuation(line)
  {
  }

  /** The non-empty cells of a row. */
  function NonEmptyCells(cells: seq<string>): (r: seq<string>)
    ensures |r| <= |cells|
    ensures forall k :: 0 <= k < |r| ==> r[k] != []
  {
    if cells == [] then []
    else if cells[0] != [] then [cells[0]] + NonEmptyCells(cells[1..])
    else NonEmptyCells(cells[1..])
  }

  /** Which cells are non-empty, position by position. */
  function NonEmptyMarks(cells: seq<string>): seq<bool> {
    seq(|cells|, j requires 0 <= j < |cells| => cells[j] != [])
  }

  /** The non-empty cells are kept, all of them and in row order. */
  lemma NonEmptyCellsKept(cells: seq<string>)
    ensures var idx := MarkedIndices(NonEmptyMarks(cells), 0);
            |NonEmptyCells(cells)| == |idx| &&
            forall m :: 0 <= m < |idx| ==> NonEmptyCells(cells)[m] == cells[idx[m]]
  {
    NonEmptyCellsFrom(cells, 0);
  }

  lemma {:induction false} NonEmptyCellsFrom(cells: seq<string>, k: nat)
    requires k <= |cells|
    ensures var idx := MarkedIndices(NonEmptyMarks(cells), k);
            |NonEmptyCells(cells[k..])| == |idx| &&
            forall m :: 0 <= m < |idx| ==> NonEmptyCells(cells[k..])[m] == cells[idx[m]]
    decreases |cells| - k
  {
    if k < |cells| {
      var marks := NonEmptyMarks(cells);
      assert |marks| == |cells| && marks[k] == (cells[k] != []);
      NonEmptyCellsFrom(cells, k + 1);
      assert cells[k..][1..] == cells[k + 1..];
      if cells[k] != [] {
        assert NonEmptyCells(cells[k..]) == [cells[k]] + NonEmptyCells(cells[k + 1..]);
        assert MarkedIndices(marks, k) == [k] + MarkedIndices(marks, k + 1);
      } else {
        assert NonEmptyCells(cells[k..]) == NonEmptyCells(cells[k + 1..]);
        assert MarkedIndices(marks, k) == MarkedIndices(marks, k + 1);
      }
    }
  }

  /** A row read as one line: its non-empty cells joined by spaces, stripped. */
  function JoinCells(cells: seq<string>): string {
    Strip(Join(" ", NonEmptyCells(cells)))
  }

  /** A row whose first cell starts with a summary word. */
  predicate IsSummaryRow(cells: seq<string>) {
    cells != [] && IsSummaryLine(Strip(cells[0]))
  }

  /** A row with an item signature never counts as a summary row. */
  lemma SignatureRowIsNotSummary(cells: seq<string>)
    requires RowHasItemSignature(cells)
    ensures !IsSummaryRow(cells)
  {
    DigitsAreNotSummary(Strip(cells[0]));
  }

  /**
    What the scan reads off one row: whether it is a summary row, the item it parses
    into when it has an item signature, the row read as one line, and whether that
    line continues a description.
   */
  datatype RowView = RowView(summary: bool, item: Option<LineItem>, line: string, continues: bool)

  function ViewOf(cells: seq<string>): RowView {
    RowView(
      IsSummaryRow(cells),
      if RowHasItemSignature(cells) then Some(TableRowItem(cells)) else None,
      JoinCells(cells),
      LineIsDescContinuation(JoinCells(cells)))
  }

  /** The view of each row, in row order. */
  function Views(rows: seq<seq<string>>): (vs: seq<RowView>)
    ensures |vs| == |rows|
  {
    if rows == [] then [] else [ViewOf(rows[0])] + Views(rows[1..])
  }

  lemma {:induction false} ViewsAt(rows: seq<seq<string>>, k: nat)
    requires k < |rows|
    ensures Views(rows)[k] == ViewOf(rows[k])
  {
    if k > 0 {
      ViewsAt(rows[1..], k - 1);
    }
  }

  /**
    The row scan from row `r`: summary rows are skipped, each row with an item gives
    that item, and an item with an empty description takes the next row's line as its
    description when that line continues a description (the next row is then consumed).
   */
  function ScanViews(vs: seq<RowView>, r: nat): (items: seq<LineItem>)
    requires r <= |vs|
    ensures |items| <= |vs| - r
    decreases |vs| - r
  {
    if r == |vs| then []
    else if vs[r].summary then ScanViews(vs, r + 1)
    else if vs[r].item.Some? then
      if Absorbs(vs, r) then [Emitted(vs, r)] + ScanViews(vs, r + 2)
      else [Emitted(vs, r)] + ScanViews(vs, r + 1)
    else ScanViews(vs, r + 1)
  }

  /** Row `k` has an item with an empty description and the next row continues it. */
  predicate Absorbs(vs: seq<RowView>, k: nat) {
    k + 1 < |vs| && vs[k].item.Some? && vs[k].item.value.description == [] && vs[k + 1].continues
  }

  /** The item the scan reads off item row `k`: the next row's line becomes its
      description exactly when that row absorbs into it. */
  function Emitted(vs: seq<RowView>, k: nat): LineItem
    requires k < |vs| && vs[k].item.Some?
  {
    if Absorbs(vs, k) then vs[k].item.value.(description := vs[k + 1].line) else vs[k].item.value
  }

  /**
    The rows from `r` on that the scan turns into items, in increasing order: a
    non-summary row with an item is one of them exactly when it is not the row
    absorbed into the item just above it.
   */
  function ScanIndices(vs: seq<RowView>, r: nat): (ks: seq<nat>)
    requires r <= |vs|
    ensures forall m :: 0 <= m < |ks| ==> r <= ks[m] < |vs| && !vs[ks[m]].summary && vs[ks[m]].item.Some?
    ensures forall m, n :: 0 <= m < n < |ks| ==> ks[m] < ks[n]
    decreases |vs| - r
  {
    if r == |vs| then []
    else if vs[r].summary || vs[r].item.None? then ScanIndices(vs, r + 1)
    else if Absorbs(vs, r) then [r] + ScanIndices(vs, r + 2)
    else [r] + ScanIndices(vs, r + 1)
  }

  /** A non-summary row with an item yields an item exactly when it is not the row
      absorbed into the item just above it. */
  lemma ScanIndicesComplete(vs: seq<RowView>, r: nat)
    requires r <= |vs|
    ensures var ks := ScanIndices(vs, r);
            forall k :: r <= k < |vs| ==>
              (k in ks <==> !vs[k].summary && vs[k].item.Some? && !(r < k && k - 1 in ks && Absorbs(vs, k - 1)))
  {
    forall k | r <= k < |vs| {
      ScanIndicesAt(vs, r, k);
    }
  }

  lemma {:induction false} ScanIndicesAt(vs: seq<RowView>, r: nat, k: nat)
    requires r <= k < |vs|
    ensures var ks := ScanIndices(vs, r);
            k in ks <==> !vs[k].summary && vs[k].item.Some? && !(r < k && k - 1 in ks && Absorbs(vs, k - 1))
    decreases |vs| - r
  {
    var emits := !vs[r].summary && vs[r].item.Some?;
    var next := if emits && Absorbs(vs, r) then r + 2 else r + 1;
    var ks := ScanIndices(vs, r);
    var rest := ScanIndices(vs, next);
    assert ks == (if emits then [r] else []) + rest;
    if k < next {
      assert k !in rest;
    } else {
      ScanIndicesAt(vs, next, k);
      assert k in ks <==> k in rest;
      assert k - 1 in ks <==> k - 1 in rest || (k - 1 == r && emits);
    }
  }

  /** Item `m` of the scan from `r` is the item of the `m`-th row the scan turns into
      an item, with the description the row below supplies when it absorbs. */
  lemma {:induction false} ScanViewsIndexed(vs: seq<RowView>, r: nat)
    requires r <= |vs|
    ensures var ks := ScanIndices(vs, r);
            |ScanViews(vs, r)| == |ks| &&
            forall m :: 0 <= m < |ks| ==> ScanViews(vs, r)[m] == Emitted(vs, ks[m])
    decreases |vs| - r
  {
    if r < |vs| {
      if vs[r].summary || vs[r].item.None? {
        ScanViewsIndexed(vs, r + 1);
      } else {
        var next := if Absorbs(vs, r) then r + 2 else r + 1;
        ScanViewsIndexed(vs, next);
        ScanEmitStep(vs, r);
        EmittedInStep(vs, r, ScanViews(vs, r), ScanViews(vs, next), ScanIndices(vs, r), ScanIndices(vs, next));
      }
    }
  }

  /** A non-summary row with an item emits it, then the scan goes on after the rows
      it used. */
  lemma ScanEmitStep(vs: seq<RowView>, r: nat)
    requires r < |vs| && !vs[r].summary && vs[r].item.Some?
    ensures var next := if Absorbs(vs, r) then r + 2 else r + 1;
            next <= |vs| &&
            ScanViews(vs, r) == [Emitted(vs, r)] + ScanViews(vs, next) &&
            ScanIndices(vs, r) == [r] + ScanIndices(vs, next)
  {
  }

  /** Emitting row `k` in front of items in step with their rows keeps them in step. */
  lemma EmittedInStep(vs: seq<RowView>, k: nat, out: seq<LineItem>, rest: seq<LineItem>,
                      ks: seq<nat>, rks: seq<nat>)
    requires k < |vs| && vs[k].item.Some?
    requires |rest| == |rks|
    requires forall m :: 0 <= m < |rks| ==>
               rks[m] < |vs| && vs[rks[m]].item.Some? && rest[m] == Emitted(vs, rks[m])
    requires out == [Emitted(vs, k)] + rest && ks == [k] + rks
    ensures |out| == |ks|
    ensures forall m :: 0 <= m < |ks| ==>
              ks[m] < |vs| && vs[ks[m]].item.Some? && out[m] == Emitted(vs, ks[m])
  {
    forall m | 0 <= m < |ks|
      ensures ks[m] < |vs| && vs[ks[m]].item.Some? && out[m] == Emitted(vs, ks[m])
    {
      if m > 0 {
        assert out[m] == rest[m - 1] && ks[m] == rks[m - 1];
      }
    }
  }

  /** The items the scan finds in the cleaned rows of a table. */
  function ScanRows(rows: seq<seq<string>>): seq<LineItem> {
    ScanViews(Views(rows), 0)
  }

  /**
    Item `m` of a table is the item parsed from its `m`-th emitting row, a row with an
    item signature; when that item has no description and the next row continues a
    description, the next row's line is its description.
   */
  lemma ScanRowsIndexed(rows: seq<seq<string>>)
    ensures var ks := ScanIndices(Views(rows), 0);
            |ScanRows(rows)| == |ks| &&
            forall m :: 0 <= m < |ks| ==>
              ks[m] < |rows| && RowHasItemSignature(rows[ks[m]]) &&
              ScanRows(rows)[m] == RowItemAt(rows, ks[m])
  {
    var vs := Views(rows);
    var ks := ScanIndices(vs, 0);
    ScanViewsIndexed(vs, 0);
    forall m | 0 <= m < |ks|
      ensures RowHasItemSignature(rows[ks[m]]) && Emitted(vs, ks[m]) == RowItemAt(rows, ks[m])
    {
      ViewsAt(rows, ks[m]);
      if ks[m] + 1 < |rows| {
        ViewsAt(rows, ks[m] + 1);
      }
      EmittedRow(rows, vs, ks[m]);
    }
  }

  /** The item parsed from signature row `k`, with the next row's line as its
      description when it has none and that line continues a description. */
  function RowItemAt(rows: seq<seq<string>>, k: nat): LineItem
    requires k < |rows| && RowHasItemSignature(rows[k])
  {
    var item := TableRowItem(rows[k]);
    if item.description == [] && k + 1 < |rows| && LineIsDescContinuation(JoinCells(rows[k + 1]))
    then item.(description := JoinCells(rows[k + 1]))
    else item
  }

  lemma EmittedRow(rows: seq<seq<string>>, vs: seq<RowView>, k: nat)
    requires k < |rows| == |vs| && vs[k] == ViewOf(rows[k])
    requires k + 1 < |rows| ==> vs[k + 1] == ViewOf(rows[k + 1])
    requires !vs[k].summary && vs[k].item.Some?
    ensures RowHasItemSignature(rows[k]) && Emitted(vs, k) == RowItemAt(rows, k)
  {
    ItemRowIffSignature(rows[k]);
    var item := TableRowItem(rows[k]);
    assert vs[k].item.value == item;
    if !(item.description == [] && k + 1 < |rows|) {
      assert !Absorbs(vs, k);
    }
  }

  /** Each parsed item carries a digit line number and an item code. */
  predicate ItemsShaped(vs: seq<RowView>) {
    forall k :: 0 <= k < |vs| && vs[k].item.Some? ==>
      IsDigitString(vs[k].item.value.lineNo) && IsItemId(vs[k].item.value.itemId)
  }

  lemma ViewsShaped(rows: seq<seq<string>>)
    ensures ItemsShaped(Views(rows))
  {
    var vs := Views(rows);
    forall k | 0 <= k < |vs| && vs[k].item.Some?
      ensures IsDigitString(vs[k].item.value.lineNo) && IsItemId(vs[k].item.value.itemId)
    {
      ViewsAt(rows, k);
    }
  }

  lemma {:induction false} ScanViewsShaped(vs: seq<RowView>, r: nat)
    requires r <= |vs| && ItemsShaped(vs)
    ensures forall k :: 0 <= k < |ScanViews(vs, r)| ==>
      IsDigitString(ScanViews(vs, r)[k].lineNo) && IsItemId(ScanViews(vs, r)[k].itemId)
    decreases |vs| - r
  {
    if r < |vs| {
      ScanViewsShaped(vs, r + 1);
      if !vs[r].summary && vs[r].item.Some? {
        var item := vs[r].item.value;
        if item.description == [] && r + 1 < |vs| && vs[r + 1].continues {
          ScanViewsShaped(vs, r + 2);
        }
      }
    }
  }

  /** Every item of a table has a digit line number and an item code. */
  lemma ScanRowsShapes(rows: seq<seq<string>>)
    ensures forall k :: 0 <= k < |ScanRows(rows)| ==>
      IsDigitString(ScanRows(rows)[k].lineNo) && IsItemId(ScanRows(rows)[k].itemId)
  {
    ViewsShaped(rows);
    ScanViewsShaped(Views(rows), 0);
  }

  /** Number of non-summary rows with an item from row `r` on. */
  function CountItemRows(vs: seq<RowView>, r: nat): nat
    requires r <= |vs|
    decreases |vs| - r
  {
    if r == |vs| then 0
    else (if !vs[r].summary && vs[r].item.Some? then 1 else 0) + CountItemRows(vs, r + 1)
  }

  /** No row with an item reads as a description continuation, so none can be
      consumed by the item above it. */
  predicate NoItemRowContinues(vs: seq<RowView>) {
    forall k :: 0 <= k < |vs| && vs[k].item.Some? ==> !vs[k].continues
  }

  /** At most one item per item row, exactly one when no item row can be consumed as
      a description, and none at all only when there is no item row. */
  lemma {:induction false} ScanViewsCount(vs: seq<RowView>, r: nat)
    requires r <= |vs|
    ensures |ScanViews(vs, r)| <= CountItemRows(vs, r)
    ensures NoItemRowContinues(vs) ==> |ScanViews(vs, r)| == CountItemRows(vs, r)
    ensures ScanViews(vs, r) == [] <==> CountItemRows(vs, r) == 0
    decreases |vs| - r
  {
    if r < |vs| {
      ScanViewsCount(vs, r + 1);
      if !vs[r].summary && vs[r].item.Some? {
        var item := vs[r].item.value;
        if item.description == [] && r + 1 < |vs| && vs[r + 1].continues {
          ScanViewsCount(vs, r + 2);
        }
      }
    }
  }

  /** A row yields an item in the scan exactly when it has an item signature. */
  lemma ItemRowIffSignature(cells: seq<string>)
    ensures (!ViewOf(cells).summary && ViewOf(cells).item.Some?) <==> RowHasItemSignature(cells)
  {
    if RowHasItemSignature(cells) {
      SignatureRowIsNotSummary(cells);
    }
  }

  /** The count of item rows from `r` on is the number of such row indices. */
  lemma {:induction false} CountItemRowsIsCard(vs: seq<RowView>, r: nat)
    requires r <= |vs|
    ensures CountItemRows(vs, r) == |set k | r <= k < |vs| && !vs[k].summary && vs[k].item.Some?|
    decreases |vs| - r
  {
    var here := set k | r <= k < |vs| && !vs[k].summary && vs[k].item.Some?;
    if r == |vs| {
      assert here == {};
    } else {
      CountItemRowsIsCard(vs, r + 1);
      var later := set k | r + 1 <= k < |vs| && !vs[k].summary && vs[k].item.Some?;
      if !vs[r].summary && vs[r].item.Some? {
        assert here == later + {r};
      } else {
        assert here == later;
      }
    }
  }

  /** The item rows of a table are exactly its signature rows. */
  lemma CountItemRowsIsSignatureRows(rows: seq<seq<string>>)
    ensures CountItemRows(Views(rows), 0) == |set k | 0 <= k < |rows| && RowHasItemSignature(rows[k])|
  {
    CountItemRowsIsCard(Views(rows), 0);
    ItemRowSetIsSignatureSet(rows);
  }

  lemma ItemRowSetIsSignatureSet(rows: seq<seq<string>>)
    ensures var vs := Views(rows);
            (set k | 0 <= k < |vs| && !vs[k].summary && vs[k].item.Some?) ==
            (set k | 0 <= k < |rows| && RowHasItemSignature(rows[k]))
  {
    var vs := Views(rows);
    forall k | 0 <= k < |rows|
      ensures (!vs[k].summary && vs[k].item.Some?) <==> RowHasItemSignature(rows[k])
    {
      ViewsAt(rows, k);
      ItemRowIffSignature(rows[k]);
    }
  }

  /**
    The items of one table: its rows are cleaned and each read into its view (summary
    test, item parse, joined line, continuation test), then scanned.
   */
  method ScanTable(table: RawTable) returns (items: seq<LineItem>)
    ensures items == ScanRows(CleanRows(table))
  {
    var vs := Views(CleanRows(table));
    items := ScanLoop(vs);
  }

  /** The scan loop over the row views of one table, as the extractor runs it. */
  method ScanLoop(vs: seq<RowView>) returns (items: seq<LineItem>)
    ensures items == ScanViews(vs, 0)
  {
    items := [];
    var r := 0;
    assert ScanViews(vs, 0) == items + ScanViews(vs, r);
    while r < |vs|
      invariant r <= |vs|
      invariant ScanViews(vs, 0) == items + ScanViews(vs, r)
      decreases |vs| - r
    {
      if vs[r].summary || vs[r].item.None? {
        r := r + 1;
        continue;
      }
      ghost var at := r;
      var item := vs[r].item.value;
      if item.description == [] && r + 1 < |vs| && vs[r + 1].continues {
        item := item.(description := vs[r + 1].line);
        r := r + 1;
      }
      assert item == Emitted(vs, at);
      assert ScanViews(vs, at) == [item] + ScanViews(vs, r + 1);
      AppendAssoc(items, [item], ScanViews(vs, r + 1));
      items := items + [item];
      r := r + 1;
    }
  }

  lemma AppendAssoc<T>(a: seq<T>, b: seq<T>, c: seq<T>)
    ensures a + (b + c) == (a + b) + c
  {
  }

  /** The items of all tables of one settings variant, table after table. */
  function TablesItems(tables: seq<RawTable>): seq<LineItem> {
    if tables == [] then []
    else TablesItems(tables[..|tables| - 1]) + ScanRows(CleanRows(tables[|tables| - 1]))
  }

  /** One page: the items of the first settings variant that yields any. */
  function PageItems(variants: seq<seq<RawTable>>): seq<LineItem> {
    if variants == [] then []
    else if TablesItems(variants[0]) != [] then TablesItems(variants[0])
    else PageItems(variants[1..])
  }

  /** A page's items are those of its first productive variant; earlier variants
      contribute nothing and later ones are not consulted. */
  lemma {:induction false} PageItemsFirstProductive(variants: seq<seq<RawTable>>, k: nat)
    requires k <= |variants|
    requires forall v :: v in variants[..k] ==> TablesItems(v) == []
    ensures k < |variants| && TablesItems(variants[k]) != [] ==> PageItems(variants) == TablesItems(variants[k])
    ensures k == |variants| ==> PageItems(variants) == []
  {
    if k > 0 {
      var rest := variants[1..];
      assert variants[0] in variants[..k];
      PageItemsSkip(variants);
      forall v | v in rest[..k - 1] ensures TablesItems(v) == [] {
        assert rest[..k - 1] == variants[..k][1..];
        assert v in variants[..k];
      }
      PageItemsFirstProductive(rest, k - 1);
      assert k < |variants| ==> rest[k - 1] == variants[k];
    }
  }

  lemma PageItemsSkip(variants: seq<seq<RawTable>>)
    requires variants != [] && TablesItems(variants[0]) == []
    ensures PageItems(variants) == PageItems(variants[1..])
  {
  }

  /** The items of a whole document, page after page. */
  function DocumentTableItems(pages: seq<seq<seq<RawTable>>>): seq<LineItem> {
    if pages == [] then []
    else DocumentTableItems(pages[..|pages| - 1]) + PageItems(pages[|pages| - 1])
  }

  /** The table loop of one settings variant: every non-empty table is scanned and its
      items are appended. */
  method VariantItems(tables: seq<RawTable>) returns (items: seq<LineItem>)
    ensures items == TablesItems(tables)
  {
    items := [];
    var t := 0;
    while t < |tables|
      invariant t <= |tables|
      invariant items == TablesItems(tables[..t])
    {
      TablesItemsStep(tables, t);
      if tables[t] == [] {
        EmptyTableHasNoItems();
        assert items + [] == items;
        t := t + 1;
        continue;
      }
      var found := ScanTable(tables[t]);
      items := items + found;
      t := t + 1;
    }
    assert tables[..t] == tables;
  }

  lemma TablesItemsStep(tables: seq<RawTable>, t: nat)
    requires t < |tables|
    ensures TablesItems(tables[..t + 1]) == TablesItems(tables[..t]) + ScanRows(CleanRows(tables[t]))
  {
    assert tables[..t + 1][..t] == tables[..t];
  }

  lemma EmptyTableHasNoItems()
    ensures ScanRows(CleanRows([])) == []
  {
  }

  /** The settings-variant loop of one page: it stops after the first variant whose
      tables yield an item. */
  method PageTableItems(variants: seq<seq<RawTable>>) returns (items: seq<LineItem>)
    ensures items == PageItems(variants)
  {
    items := [];
    var pageItemsFound := false;
    var v := 0;
    while v < |variants|
      invariant v <= |variants|
      invariant items == []
      invariant PageItems(variants) == PageItems(variants[v..])
    {
      var found := VariantItems(variants[v]);
      if found != [] {
        assert variants[v..][0] == variants[v];
        items := found;
        pageItemsFound := true;
        break;
      }
      assert variants[v..][1..] == variants[v + 1..];
      v := v + 1;
    }
    if !pageItemsFound {
      assert variants[v..] == [];
    }
  }

  /** `extract_line_items_by_tables`, given the tables found on each page under each
      settings variant (a variant whose table finder fails gives no tables). */
  method ExtractByTables(pages: seq<seq<seq<RawTable>>>) returns (items: seq<LineItem>)
    ensures items == DocumentTableItems(pages)
  {
    items := [];
    var p := 0;
    while p < |pages|
      invariant p <= |pages|
      invariant items == DocumentTableItems(pages[..p])
    {
      assert pages[..p + 1][..p] == pages[..p];
      var found := PageTableItems(pages[p]);
      items := items + found;
      p := p + 1;
    }
    assert pages[..p] == pages;
  }
}
