/**
  The router: the system type picks the builder.  A Cadre quote gives its item
  records and no warning; a Voelkr document gives its single record and a warning
  when the field list looks like a placeholder; any other system type is an error
  that names it.
 */
module Router {
  import opened Wrappers
  import opened QuoteHeader
  import opened Items
  import C = CadreRecords
  import V = VoelkrRecords

  const SystemTypes: seq<string> := ["Cadre", "Voelkr"]

  const PlaceholderWarning: string :=
    "Voelkr headers look like placeholders. Replace VOELKR_FIELDS with your real CSV headers."

  /** The warnings of a Voelkr document: one when the field list looks like a
      placeholder (three fields or fewer). */
  function VoelkrWarnings(): seq<string> {
    if |V.Fields| <= 3 then [PlaceholderWarning] else []
  }

  /** The records of one document, in the column type of its system. */
  datatype Rows = CadreRows(cadre: seq<C.Record>) | VoelkrRows(voelkr: seq<V.VoelkrRecord>)

  datatype Parsed = Parsed(rows: Rows, warnings: seq<string>)

  /** `columns_for_system`: the output column names of a system type, in order. */
  function ColumnsForSystem(systemType: string): seq<string> {
    if systemType == "Cadre" then seq(|C.Columns|, i requires 0 <= i < |C.Columns| => C.Name(C.Columns[i]))
    else if systemType == "Voelkr" then seq(|V.Fields|, i requires 0 <= i < |V.Fields| => V.Name(V.Fields[i]))
    else []
  }

  /** `parse_pdf`: the records of the system's builder and its warnings; an unknown
      system type is an error naming it.  Every record has exactly its system's
      columns. */
  method ParsePdf(systemType: string, doc: C.Document, filename: string,
                  headerSearch: HeaderSearch, fieldSearch: V.FieldSearch)
    returns (r: Result<Parsed, string>)
    ensures r.Ok? <==> systemType in SystemTypes
    ensures systemType == "Cadre" ==>
      r == Ok(Parsed(CadreRows(C.CadreRows(CadreHeader(doc.text, headerSearch), C.CadreItems(doc), filename)), []))
    ensures systemType == "Voelkr" ==>
      r == Ok(Parsed(VoelkrRows([V.VoelkrRow(doc.text, filename, fieldSearch)]), VoelkrWarnings()))
    ensures systemType !in SystemTypes ==> r == Err("Unknown system type: " + systemType)
    ensures r.Ok? && r.value.rows.CadreRows? ==> forall i :: 0 <= i < |r.value.rows.cadre| ==>
      r.value.rows.cadre[i].Keys == set c | c in C.Columns
    ensures r.Ok? && r.value.rows.VoelkrRows? ==> forall i :: 0 <= i < |r.value.rows.voelkr| ==>
      r.value.rows.voelkr[i].Keys == set f | f in V.Fields
  {
    if systemType == "Cadre" {
      var rows := C.BuildRowsCadre(doc, filename, headerSearch);
      CadreKeys(CadreHeader(doc.text, headerSearch), C.CadreItems(doc), filename);
      return Ok(Parsed(CadreRows(rows), []));
    }
    if systemType == "Voelkr" {
      var rows := V.BuildRowsVoelkr(doc.text, filename, fieldSearch);
      VoelkrKeys(doc.text, filename, fieldSearch);
      return Ok(Parsed(VoelkrRows(rows), VoelkrWarnings()));
    }
    return Err("Unknown system type: " + systemType);
  }

  /** Every Cadre record has exactly the listed columns. */
  lemma CadreKeys(h: Header, items: seq<LineItem>, filename: string)
    ensures var rows := C.CadreRows(h, items, filename);
            forall i :: 0 <= i < |rows| ==> rows[i].Keys == set c | c in C.Columns
  {
    C.CadreRowsBroadcast(h, items, filename);
  }

  /** The Voelkr record has exactly the listed fields. */
  lemma VoelkrKeys(text: string, filename: string, search: V.FieldSearch)
    ensures V.VoelkrRow(text, filename, search).Keys == set f | f in V.Fields
  {
    V.VoelkrRowShape(text, filename, search);
  }

  /** The ten Voelkr fields are not a placeholder list: no warning is given. */
  lemma NoPlaceholderWarning()
    ensures VoelkrWarnings() == []
  {
  }

  /** Only the two known system types have columns: the 25 Cadre columns or the ten
      Voelkr fields, "PDF" among them. */
  lemma ColumnsForKnownSystems(systemType: string)
    ensures ColumnsForSystem(systemType) == [] <==> systemType !in SystemTypes
    ensures systemType == "Cadre" ==> |ColumnsForSystem(systemType)| == 25 && ColumnsForSystem(systemType)[23] == "PDF"
    ensures systemType == "Voelkr" ==> |ColumnsForSystem(systemType)| == 10 && ColumnsForSystem(systemType)[0] == "PDF"
  {
  }
}
