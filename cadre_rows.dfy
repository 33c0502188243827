/**
  The records of a Cadre quote: one per line item (the tax row included), each with
  the 25 Cadre columns.  The header fields, the brand and the file name are copied
  onto every record; the item code, description and prices come from the item.
 */
module CadreRecords {
  import opened Wrappers
  import opened Text
  import opened Items
  import opened TableItems
  import opened WordFlow
  import opened Hybrid
  import opened Tax
  import opened Dates
  import opened QuoteHeader

  /** A cell of an output record: `None`, a text, or what `_safe_float` makes of a
      non-empty text (the float conversion itself is not modelled). */
  datatype Value = Null | Str(s: string) | SafeFloatOf(source: string)

  /** The Cadre output columns. */
  datatype Column =
    | ReferralManager | ReferralEmail | Brand | QuoteNumber | QuoteDate | Company
    | FirstName | LastName | ContactEmail | ContactPhone | Address | County | City
    | State | ZipCode | Country | ItemId | ItemDesc | UnitPrice | TotalSales
    | QuoteValidDate | CustomerNumber | ManufacturerName | Pdf | DemoQuote

  /** The column's name in the output. */
  function Name(c: Column): string {
    match c
    case ReferralManager => "ReferralManager"
    case ReferralEmail => "ReferralEmail"
    case Brand => "Brand"
    case QuoteNumber => "QuoteNumber"
    case QuoteDate => "QuoteDate"
    case Company => "Company"
    case FirstName => "FirstName"
    case LastName => "LastName"
    case ContactEmail => "ContactEmail"
    case ContactPhone => "ContactPhone"
    case Address => "Address"
    case County => "County"
    case City => "City"
    case State => "State"
    case ZipCode => "ZipCode"
    case Country => "Country"
    case ItemId => "item_id"
    case ItemDesc => "item_desc"
    case UnitPrice => "UnitPrice"
    case TotalSales => "TotalSales"
    case QuoteValidDate => "QuoteValidDate"
    case CustomerNumber => "CustomerNumber"
    case ManufacturerName => "manufacturer_Name"
    case Pdf => "PDF"
    case DemoQuote => "DemoQuote"
  }

  type Record = map<Column, Value>

  /** What the PDF reader hands the extractor: the full text, the tables of every
      page under every table-finder setting, and the visual lines of the words. */
  datatype Document = Document(text: string, tables: seq<seq<seq<RawTable>>>, lines: seq<string>)

  /** `CADRE_COLUMNS`, in order. */
  const Columns: seq<Column> := [
    ReferralManager, ReferralEmail, Brand, QuoteNumber, QuoteDate, Company,
    FirstName, LastName, ContactEmail, ContactPhone, Address, County, City,
    State, ZipCode, Country, ItemId, ItemDesc, UnitPrice, TotalSales,
    QuoteValidDate, CustomerNumber, ManufacturerName, Pdf, DemoQuote]

  /** The Cadre columns as a set: the keys of a Cadre record. */
  const ColumnSet: set<Column> := set c | c in Columns

  /** The Cadre columns copied from the header as they are. */
  const HeaderColumns: set<Column> := {
    ReferralManager, QuoteNumber, Company, FirstName, LastName, Address,
    City, State, ZipCode, Country, CustomerNumber}

  /** `header.get(c)`. */
  function HeaderGet(h: Header, c: Column): Option<string> {
    match c
    case ReferralManager => h.referralManager
    case QuoteNumber => h.quoteNumber
    case QuoteDate => h.quoteDate
    case Company => h.company
    case FirstName => h.firstName
    case LastName => h.lastName
    case Address => h.address
    case City => h.city
    case State => h.state
    case ZipCode => h.zipCode
    case Country => h.country
    case QuoteValidDate => h.quoteValidDate
    case CustomerNumber => h.customerNumber
    case _ => None
  }

  function OptValue(o: Option<string>): Value {
    if o.Some? then Str(o.value) else Null
  }

  /** `normalize_date_str(header.get(c))`. */
  function HeaderDate(h: Header, c: Column): Value {
    OptValue(NormalizeDateStr(HeaderGet(h, c)))
  }

  /** `_safe_float(text)`: None for "". */
  function SafeFloat(s: string): Value {
    if s == "" then Null else SafeFloatOf(s)
  }

  /** The value of column `c` in the record of item `it`. */
  function CadreCell(c: Column, header: Header, it: LineItem, filename: string): Value {
    match c
    case Brand => Str("Cadre Wire Group")
    case QuoteDate => HeaderDate(header, QuoteDate)
    case QuoteValidDate => HeaderDate(header, QuoteValidDate)
    case ItemId => Str(it.itemId)
    case ItemDesc => Str(it.description)
    case UnitPrice => SafeFloat(it.unitPrice)
    case TotalSales => SafeFloat(it.total)
    case Pdf => Str(filename)
    case ReferralEmail | ContactEmail | ContactPhone | County | ManufacturerName | DemoQuote => Null
    case _ => OptValue(HeaderGet(header, c))
  }

  /** The record of one item: exactly the Cadre columns. */
  function CadreRow(header: Header, it: LineItem, filename: string): Record {
    map c | c in ColumnSet :: CadreCell(c, header, it, filename)
  }

  /** The items of a Cadre quote: the hybrid extractor's, then the tax row. */
  function CadreItems(doc: Document): seq<LineItem> {
    WithTaxRow(HybridItems(DocumentTableItems(doc.tables), WordItems(doc.lines)), ExtractTaxAmount(doc.text))
  }

  function CadreRows(header: Header, items: seq<LineItem>, filename: string): seq<Record> {
    seq(|items|, i requires 0 <= i < |items| => CadreRow(header, items[i], filename))
  }

  /** The 25 Cadre columns, each once, with the names of the output header. */
  lemma CadreColumnNames()
    ensures |Columns| == 25
    ensures forall i, j :: 0 <= i < j < |Columns| ==> Columns[i] != Columns[j]
    ensures Name(Columns[0]) == "ReferralManager" && Name(Columns[16]) == "item_id" &&
            Name(Columns[22]) == "manufacturer_Name" && Name(Columns[23]) == "PDF"
  {
  }

  /** The columns that come from the item rather than from the header or constants. */
  const ItemColumns: set<Column> := {ItemId, ItemDesc, UnitPrice, TotalSales}

  /** Every column outside the item columns has the same value for every item: the
      header's value, its normalized date, the brand, the file name or None. */
  lemma CadreCellBroadcast(c: Column, header: Header, it1: LineItem, it2: LineItem, filename: string)
    requires c !in ItemColumns
    ensures CadreCell(c, header, it1, filename) == CadreCell(c, header, it2, filename)
    ensures c in HeaderColumns ==> CadreCell(c, header, it1, filename) == OptValue(HeaderGet(header, c))
  {
  }

  /** The item columns: code, description and the two prices, "" read as None. */
  lemma CadreItemCells(header: Header, it: LineItem, filename: string)
    ensures CadreCell(ItemId, header, it, filename) == Str(it.itemId)
    ensures CadreCell(ItemDesc, header, it, filename) == Str(it.description)
    ensures CadreCell(UnitPrice, header, it, filename) == Null <==> it.unitPrice == ""
    ensures CadreCell(TotalSales, header, it, filename) == Null <==> it.total == ""
  {
  }

  /** The cells that do not depend on the header fields or the item: the brand, the
      file name and the six columns the extractor always leaves None. */
  lemma CadreFixedCells(header: Header, it: LineItem, filename: string)
    ensures CadreCell(Brand, header, it, filename) == Str("Cadre Wire Group")
    ensures CadreCell(Pdf, header, it, filename) == Str(filename)
    ensures CadreCell(ReferralEmail, header, it, filename) == Null && CadreCell(ContactEmail, header, it, filename) == Null
    ensures CadreCell(ContactPhone, header, it, filename) == Null && CadreCell(County, header, it, filename) == Null
    ensures CadreCell(ManufacturerName, header, it, filename) == Null && CadreCell(DemoQuote, header, it, filename) == Null
  {
  }

  /** The two date columns hold the header's dates, normalized; an absent or empty
      date is None. */
  lemma CadreDateCells(header: Header, it: LineItem, filename: string)
    ensures CadreCell(QuoteDate, header, it, filename) == OptValue(NormalizeDateStr(header.quoteDate))
    ensures CadreCell(QuoteValidDate, header, it, filename) == OptValue(NormalizeDateStr(header.quoteValidDate))
    ensures CadreCell(QuoteDate, header, it, filename) == Null <==> header.quoteDate.None? || header.quoteDate.value == ""
  {
    assert HeaderGet(header, QuoteDate) == header.quoteDate;
    assert HeaderGet(header, QuoteValidDate) == header.quoteValidDate;
  }

  /** One record per item, in order, each with exactly the Cadre columns; every
      record carries the same values outside the item columns. */
  lemma CadreRowsBroadcast(header: Header, items: seq<LineItem>, filename: string)
    ensures var rows := CadreRows(header, items, filename);
            |rows| == |items| &&
            (forall i :: 0 <= i < |rows| ==>
               rows[i] == CadreRow(header, items[i], filename) && rows[i].Keys == ColumnSet) &&
            (forall i, j, c :: 0 <= i < |rows| && 0 <= j < |rows| && c in rows[i] && c !in ItemColumns ==>
               c in rows[j] && rows[i][c] == rows[j][c])
  {
    var rows := CadreRows(header, items, filename);
    forall i, j, c | 0 <= i < |rows| && 0 <= j < |rows| && c in rows[i] && c !in ItemColumns
      ensures c in rows[j] && rows[i][c] == rows[j][c]
    {
      CadreCellBroadcast(c, header, items[i], items[j], filename);
    }
  }

  /** A due tax adds one last record, made from the tax item; its prices are present. */
  lemma CadreTaxRecord(hybrid: seq<LineItem>, tax: Option<string>, header: Header, filename: string)
    ensures var rows := CadreRows(header, WithTaxRow(hybrid, tax), filename);
            if TaxRowDue(tax) then
              var p := FormatCents(Cents(tax.value));
              |rows| == |hybrid| + 1 && p != "" &&
              rows[|hybrid|] == CadreRow(header, LineItem("TAX", "Tax", "1", p, p, ""), filename)
            else |rows| == |hybrid|
  {
    TaxRowRule(hybrid, tax);
    if TaxRowDue(tax) {
      FormatCentsRoundTrip(Cents(tax.value));
    }
  }

  /** `build_rows_cadre`. */
  method BuildRowsCadre(doc: Document, filename: string, search: HeaderSearch) returns (rows: seq<Record>)
    ensures rows == CadreRows(CadreHeader(doc.text, search), CadreItems(doc), filename)
  {
    var header := CadreHeader(doc.text, search);
    var items := ExtractHybrid(doc.tables, doc.lines);
    items := WithTaxRow(items, ExtractTaxAmount(doc.text));
    rows := CadreRecords(header, items, filename);
  }

  /** The loop of `build_rows_cadre` that makes one record per item. */
  method CadreRecords(header: Header, items: seq<LineItem>, filename: string) returns (rows: seq<Record>)
    ensures rows == CadreRows(header, items, filename)
  {
    rows := [];
    for i := 0 to |items|
      invariant |rows| == i
      invariant forall k :: 0 <= k < i ==> rows[k] == CadreRow(header, items[k], filename)
    {
      rows := rows + [CadreRow(header, items[i], filename)];
    }
  }
}
