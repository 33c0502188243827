/**
  The record of a Voelkr document: exactly one, keyed by the Voelkr fields.  "PDF"
  holds the file name; every other field is searched for with its own pattern
  (case-insensitive, multi-line) and holds the captured text with whitespace
  collapsed, a date field the normalized date, or "" when there is no pattern, no
  match or the pattern does not compile.  The search itself is a parameter
  (`FieldSearch`).
 */
module VoelkrRecords {
  import opened Wrappers
  import opened Text
  import opened Tokens
  import opened Dates

  /** The Voelkr output fields. */
  datatype Field =
    | Pdf | DocumentNumber | DocumentDate | CustomerName | CustomerNumber
    | ShipToAddress | BillToAddress | Subtotal | Tax | Total

  /** The field's name in the output. */
  function Name(f: Field): string {
    match f
    case Pdf => "PDF"
    case DocumentNumber => "DocumentNumber"
    case DocumentDate => "DocumentDate"
    case CustomerName => "CustomerName"
    case CustomerNumber => "CustomerNumber"
    case ShipToAddress => "ShipToAddress"
    case BillToAddress => "BillToAddress"
    case Subtotal => "Subtotal"
    case Tax => "Tax"
    case Total => "Total"
  }

  /** A Voelkr record: every value is text. */
  type VoelkrRecord = map<Field, string>

  /** `VOELKR_FIELDS`, in order. */
  const Fields: seq<Field> := [
    Pdf, DocumentNumber, DocumentDate, CustomerName, CustomerNumber,
    ShipToAddress, BillToAddress, Subtotal, Tax, Total]

  /** The Voelkr fields as a set: the keys of a Voelkr record. */
  const FieldSet: set<Field> := set f | f in Fields

  /** The Voelkr field list holds ten fields, each once. */
  lemma VoelkrFieldList()
    ensures |Fields| == 10
    ensures forall i, j :: 0 <= i < j < |Fields| ==> Fields[i] != Fields[j]
  {
  }

  /** `VOELKR_REGEX_MAP`: the pattern of each Voelkr field; "PDF" has none. */
  function PatternOf(f: Field): Option<string> {
    match f
    case DocumentNumber => Some("(?:Document|Invoice|Order)\\s*(?:No\\.?|Number)?\\s*[:#]?\\s*([A-Z0-9\\-]+)")
    case DocumentDate => Some("(?:Date)\\s*[:#]?\\s*(\\d{1,2}[\\/\\-]\\d{1,2}[\\/\\-]\\d{2,4})")
    case CustomerName => Some("(?:Customer|Sold To|Bill To)\\s*[:#]?\\s*(.+)")
    case CustomerNumber => Some("(?:Customer\\s*No\\.?|Customer\\s*Number)\\s*[:#]?\\s*([A-Z0-9\\-]+)")
    case Subtotal => Some("(?:Subtotal)\\s*[:#]?\\s*\\$?\\s*([\\d,]+\\.\\d{2})")
    case Tax => Some("(?:Tax)\\s*[:#]?\\s*\\$?\\s*([\\d,]+\\.\\d{2})")
    case Total => Some("(?:Total)\\s*[:#]?\\s*\\$?\\s*([\\d,]+\\.\\d{2})")
    case ShipToAddress => Some("(?:Ship\\s*To)\\s*[:#]?\\s*(.+)")
    case BillToAddress => Some("(?:Bill\\s*To)\\s*[:#]?\\s*(.+)")
    case _ => None
  }

  /** Whether the field has a pattern: every Voelkr field except "PDF". */
  predicate HasPattern(f: Field) {
    f in {DocumentNumber, DocumentDate, CustomerName, CustomerNumber, Subtotal,
          Tax, Total, ShipToAddress, BillToAddress}
  }

  /** The fields with a pattern are exactly those the pattern table names. */
  lemma PatternsGiven(f: Field)
    ensures HasPattern(f) <==> PatternOf(f).Some?
  {
  }

  /** The case-insensitive, multi-line search of a Voelkr pattern: a pattern that does
      not compile, no match, or the text of group 1 (of the whole match when the
      pattern has no group). */
  datatype SearchOutcome = BadPattern | NoMatch | Match(value: string)

  /** The search of `PatternOf(f)` in a text, for a field `f` with a pattern. */
  type FieldSearch = (Field, string) -> SearchOutcome

  /** `s.lower()`, on ASCII letters. */
  function Lower(s: string): string {
    seq(|s|, i requires 0 <= i < |s| => ToLower(s[i]))
  }

  /** `"date" in field.lower()`. */
  predicate IsDateField(f: Field) {
    Contains(Lower(Name(f)), "date")
  }

  /** The value a matched field gets: whitespace collapsed, and, for a date field, the
      normalized date unless that is empty. */
  function MatchedValue(f: Field, value: string): (r: string)
    ensures !IsDateField(f) ==> r == Join(" ", Split(value))
  {
    var v := CollapseSpaces(value);
    CollapseIsJoinedWords(value);
    if IsDateField(f) then
      match NormalizeDateStr(Some(v))
      case Some(d) => if d != "" then d else v
      case None => v
    else v
  }

  /** The final value of a Voelkr field. */
  function VoelkrValue(f: Field, text: string, filename: string, search: FieldSearch): (v: string)
    ensures f != Pdf && v != "" ==> HasPattern(f) && search(f, text).Match?
  {
    if f == Pdf then filename
    else if !HasPattern(f) then ""
    else match search(f, text)
      case Match(v) => MatchedValue(f, v)
      case _ => ""
  }

  function VoelkrRow(text: string, filename: string, search: FieldSearch): VoelkrRecord {
    map f | f in FieldSet :: VoelkrValue(f, text, filename, search)
  }

  /** The Voelkr record has exactly the Voelkr fields, "PDF" holds the file name
      and every other field its own value. */
  lemma VoelkrRowShape(text: string, filename: string, search: FieldSearch)
    ensures var row := VoelkrRow(text, filename, search);
            row.Keys == FieldSet && row[Pdf] == filename &&
            forall f :: f in row ==> row[f] == VoelkrValue(f, text, filename, search)
  {
  }

  /** A field other than "PDF" without a pattern, with a pattern that does not
      compile, or without a match is left "". */
  lemma VoelkrUnmatched(f: Field, text: string, filename: string, search: FieldSearch)
    requires f != Pdf
    requires !HasPattern(f) || !search(f, text).Match?
    ensures VoelkrValue(f, text, filename, search) == ""
  {
  }

  /** A matched value is its words joined by single spaces; in a date field holding a
      date it becomes that date as `MM/DD/YYYY`. */
  lemma VoelkrMatched(f: Field, text: string, filename: string, search: FieldSearch)
    requires f != Pdf && HasPattern(f) && search(f, text).Match?
    ensures var words := Join(" ", Split(search(f, text).value));
            var r := VoelkrValue(f, text, filename, search);
            (!IsDateField(f) ==> r == words) &&
            (IsDateField(f) && FindDate(words, 0).None? ==> r == words) &&
            (IsDateField(f) && FindDate(words, 0).Some? ==>
               words != [] && r == NormalizeDateStr(Some(words)).value && IsNormalizedDate(r))
  {
    var v := search(f, text).value;
    assert VoelkrValue(f, text, filename, search) == MatchedValue(f, v);
    MatchedValueShape(f, v);
  }

  lemma MatchedValueShape(f: Field, v: string)
    ensures var words := Join(" ", Split(v));
            var r := MatchedValue(f, v);
            (!IsDateField(f) ==> r == words) &&
            (IsDateField(f) && FindDate(words, 0).None? ==> r == words) &&
            (IsDateField(f) && FindDate(words, 0).Some? ==>
               words != [] && r == NormalizeDateStr(Some(words)).value && IsNormalizedDate(r))
  {
    CollapseIsJoinedWords(v);
    var c := CollapseSpaces(v);
    if IsDateField(f) && FindDate(c, 0).Some? {
      assert c != [];
      NormalizeDateFields(c);
      var d := NormalizeDateStr(Some(c)).value;
      assert |d| == 10;
      assert MatchedValue(f, v) == d;
    }
  }

  /** "DocumentDate" is a date field: its lower-cased name contains "date". */
  lemma VoelkrDateField()
    ensures IsDateField(DocumentDate)
  {
    assert OccursAt(Lower(Name(DocumentDate)), "date", 8);
  }

  /** The record after the loop has handled the first `n` fields: "PDF" and the
      handled fields hold their values, the others "". */
  function VoelkrPartial(text: string, filename: string, search: FieldSearch, n: nat): VoelkrRecord
    requires n <= |Fields|
  {
    map f | f in FieldSet ::
      if f == Pdf || f in Fields[..n] then VoelkrValue(f, text, filename, search) else ""
  }

  /** Before the loop: every field "", then "PDF" the file name. */
  lemma VoelkrPartialStart(text: string, filename: string, search: FieldSearch)
    ensures VoelkrPartial(text, filename, search, 0) == (map f | f in FieldSet :: "")[Pdf := filename]
  {
    MapFromValues(VoelkrPartial(text, filename, search, 0), (map f | f in FieldSet :: "")[Pdf := filename]);
  }

  /** Handling field `i` sets it to its value. */
  lemma VoelkrPartialStep(text: string, filename: string, search: FieldSearch, i: nat)
    requires i < |Fields|
    ensures VoelkrPartial(text, filename, search, i + 1) ==
            VoelkrPartial(text, filename, search, i)[Fields[i] := VoelkrValue(Fields[i], text, filename, search)]
  {
    var before := VoelkrPartial(text, filename, search, i);
    var after := VoelkrPartial(text, filename, search, i + 1);
    var field := Fields[i];
    VoelkrFieldList();
    SliceSnoc(Fields, i);
    MapFromValues(after, before[field := VoelkrValue(field, text, filename, search)]);
  }

  /** After the last field the record is the Voelkr record. */
  lemma VoelkrPartialEnd(text: string, filename: string, search: FieldSearch)
    ensures VoelkrPartial(text, filename, search, |Fields|) == VoelkrRow(text, filename, search)
  {
    SliceAll(Fields);
    MapFromValues(VoelkrPartial(text, filename, search, |Fields|), VoelkrRow(text, filename, search));
  }

  /** Two maps with the same keys and the same value at each key are equal. */
  lemma MapFromValues<K, V>(m: map<K, V>, n: map<K, V>)
    requires m.Keys == n.Keys
    requires forall k :: k in m ==> m[k] == n[k]
    ensures m == n
  {
  }

  /** Writing back the value a key already has changes nothing. */
  lemma MapUpdateSame<K, V>(m: map<K, V>, k: K, v: V)
    requires k in m && m[k] == v
    ensures m[k := v] == m
  {
  }

  lemma SliceSnoc<T>(s: seq<T>, i: nat)
    requires i < |s|
    ensures forall x :: x in s[..i + 1] <==> x in s[..i] || x == s[i]
  {
    assert s[..i + 1] == s[..i] + [s[i]];
  }

  lemma SliceAll<T>(s: seq<T>)
    ensures s[..|s|] == s
  {
  }

  /** `build_rows_voelkr`: the record starts with "" in every field, takes the file
      name, and then each field with a pattern and a match takes its value. */
  method BuildRowsVoelkr(text: string, filename: string, search: FieldSearch) returns (rows: seq<VoelkrRecord>)
    ensures rows == [VoelkrRow(text, filename, search)]
  {
    var row: VoelkrRecord := map f | f in FieldSet :: "";
    row := row[Pdf := filename];
    VoelkrPartialStart(text, filename, search);
    for i := 0 to |Fields|
      invariant row == VoelkrPartial(text, filename, search, i)
    {
      var field := Fields[i];
      VoelkrPartialStep(text, filename, search, i);
      VoelkrFieldList();
      if field == Pdf {
        MapUpdateSame(row, field, filename);
        continue;
      }
      if !HasPattern(field) {
        VoelkrUnmatched(field, text, filename, search);
        MapUpdateSame(row, field, "");
        continue;
      }
      match search(field, text) {
        case Match(v) =>
          row := row[field := MatchedValue(field, v)];
        case NoMatch =>
          VoelkrUnmatched(field, text, filename, search);
          MapUpdateSame(row, field, "");
        case BadPattern =>
          VoelkrUnmatched(field, text, filename, search);
          MapUpdateSame(row, field, "");
      }
    }
    VoelkrPartialEnd(text, filename, search);
    rows := [row];
  }
}
