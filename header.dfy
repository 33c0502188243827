/**
  The header of a Cadre quote: the quote number and date, the customer number, the
  contact's first and last name, the salesperson, the address block fields and the
  date the quote is good through, each read from the full text by its own pattern.
  The pattern searches are a parameter (`HeaderSearch`); what the model fixes is
  which text each pattern is searched in and what is done with the groups.
 */
module QuoteHeader {
  import opened Wrappers
  import opened Text

  /** The free-text patterns of the Cadre header. */
  datatype HeaderPattern =
    | QuotePattern        // `Quote <number> Date <m/d/yyyy>`
    | CustomerPattern     // `Customer <number>`
    | ContactPattern      // `Contact <name>`
    | SalespersonPattern  // `Salesperson <name>`
    | CompanyPattern      // `Quoted For: <company> Ship To:`
    | StreetPattern       // a street line starting with 3 to 6 digits
    | CityPattern         // `<city>, <ST> <zip>`
    | ValidThroughPattern // `Quote Good Through <m/d/yyyy>`

  /** How many groups each header pattern captures. */
  function GroupCount(p: HeaderPattern): nat {
    match p
    case QuotePattern => 2
    case CityPattern => 3
    case _ => 1
  }

  /** `re.search(pattern, text)` for the header patterns: the groups of the first
      match, or None. */
  type HeaderSearch = (HeaderPattern, string) -> Option<seq<string>>

  ghost predicate WellFormedSearch(search: HeaderSearch) {
    forall p, t :: search(p, t).Some? ==> |search(p, t).value| == GroupCount(p)
  }

  /** `extract_header_info_cadre`'s dictionary: a field is None when its pattern did
      not match. */
  datatype Header = Header(
    referralManager: Option<string>,
    quoteNumber: Option<string>,
    quoteDate: Option<string>,
    company: Option<string>,
    firstName: Option<string>,
    lastName: Option<string>,
    address: Option<string>,
    city: Option<string>,
    state: Option<string>,
    zipCode: Option<string>,
    country: Option<string>,
    quoteValidDate: Option<string>,
    customerNumber: Option<string>)

  /** Group `k` of a search result, stripped when `strip` is set. */
  function Group(r: Option<seq<string>>, k: nat, strip: bool): Option<string> {
    if r.Some? && k < |r.value| then Some(if strip then Strip(r.value[k]) else r.value[k]) else None
  }

  /** The contact name split into words: the first is the first name, the others,
      joined by single spaces, the last name. */
  function ContactName(name: string): (names: (Option<string>, Option<string>))
    ensures names.0.Some? <==> Split(Strip(name)) != []
    ensures names.1.Some? ==> names.0.Some?
  {
    var parts := Split(Strip(name));
    if |parts| >= 2 then (Some(parts[0]), Some(Join(" ", parts[1..])))
    else if |parts| == 1 then (Some(parts[0]), None)
    else (None, None)
  }

  /** The address block: from "Quoted For:" to "Quote Good Through", empty when the
      second comes first; None unless the text has both. */
  function AddressBlock(text: string): (block: Option<string>)
    ensures block.Some? ==> |block.value| <= |text|
  {
    var start := IndexOfFrom(text, "Quoted For:", 0);
    var end := IndexOfFrom(text, "Quote Good Through", 0);
    if start.None? || end.None? then None
    else if start.value <= end.value then Some(text[start.value..end.value])
    else Some("")
  }

  /** A header pattern searched in the address block, when there is one. */
  function InBlock(block: Option<string>, p: HeaderPattern, search: HeaderSearch): Option<seq<string>> {
    if block.None? then None else search(p, block.value)
  }

  /** `extract_header_info_cadre`: each field from its own pattern; the company, the
      street address, the city, state and zip code and the country only from the
      address block. */
  function CadreHeader(text: string, search: HeaderSearch): (h: Header)
    ensures h.country.Some? ==> h.country.value == "USA"
  {
    var quote := search(QuotePattern, text);
    var contact := search(ContactPattern, text);
    var names := if contact.Some? && |contact.value| > 0 then ContactName(contact.value[0]) else (None, None);
    var block := AddressBlock(text);
    var city := InBlock(block, CityPattern, search);
    Header(
      referralManager := Group(search(SalespersonPattern, text), 0, true),
      quoteNumber := Group(quote, 0, false),
      quoteDate := Group(quote, 1, false),
      company := Group(InBlock(block, CompanyPattern, search), 0, true),
      firstName := names.0,
      lastName := names.1,
      address := Group(InBlock(block, StreetPattern, search), 0, true),
      city := Group(city, 0, true),
      state := Group(city, 1, false),
      zipCode := Group(city, 2, false),
      country := if block.Some? && Contains(block.value, "United States of America") then Some("USA") else None,
      quoteValidDate := Group(search(ValidThroughPattern, text), 0, false),
      customerNumber := Group(search(CustomerPattern, text), 0, false))
  }

  /** The first name is the first word of the contact, the last name the remaining
      words joined by single spaces; together they give back the contact's words. */
  lemma ContactNameWords(name: string)
    ensures var (first, last) := ContactName(name);
            var words := Split(name);
            (first.Some? <==> words != []) &&
            (last.Some? <==> |words| >= 2) &&
            (first.Some? ==> first.value == words[0] && first.value != [] && NoSpace(first.value)) &&
            (last.Some? ==> Split(first.value + " " + last.value) == words)
  {
    SplitStrip(name);
    var parts := Split(name);
    SplitWords(name);
    if |parts| >= 2 {
      var first := parts[0];
      var rest := Join(" ", parts[1..]);
      assert Join(" ", parts) == first + " " + rest;
      SplitJoin(parts);
    }
  }

  /** The address block is read only when the text has both markers: it runs from
      the first "Quoted For:" to the first "Quote Good Through", or is empty when the
      second comes first. */
  lemma AddressBlockBounds(text: string)
    ensures var s := IndexOfFrom(text, "Quoted For:", 0);
            var e := IndexOfFrom(text, "Quote Good Through", 0);
            (AddressBlock(text).Some? <==> Contains(text, "Quoted For:") && Contains(text, "Quote Good Through")) &&
            (s.Some? && e.Some? && s.value <= e.value ==> AddressBlock(text) == Some(text[s.value..e.value])) &&
            (s.Some? && e.Some? && s.value > e.value ==> AddressBlock(text) == Some(""))
  {
    ContainsIndex(text, "Quoted For:");
    ContainsIndex(text, "Quote Good Through");
  }

  /** The address fields are set only from a match inside the block; the city comes
      with the state and the zip code; the country is "USA" exactly when the block
      names the United States of America.  A well-formed search sets every field
      whose pattern matched. */
  lemma HeaderAddressFields(text: string, search: HeaderSearch)
    ensures var h := CadreHeader(text, search);
            var block := AddressBlock(text);
            (block.None? ==> h.company.None? && h.address.None? && h.city.None? && h.country.None?) &&
            (h.country.Some? <==> block.Some? && Contains(block.value, "United States of America")) &&
            (h.country.Some? ==> h.country.value == "USA") &&
            (h.company.Some? ==> search(CompanyPattern, block.value).Some?) &&
            (h.city.Some? ==> search(CityPattern, block.value).Some?)
    ensures WellFormedSearch(search) ==>
            var h := CadreHeader(text, search);
            var block := AddressBlock(text);
            (h.city.Some? <==> h.state.Some?) && (h.city.Some? <==> h.zipCode.Some?) &&
            (h.quoteNumber.Some? <==> h.quoteDate.Some?) &&
            (block.Some? ==> (h.company.Some? <==> search(CompanyPattern, block.value).Some?)) &&
            (block.Some? ==> (h.city.Some? <==> search(CityPattern, block.value).Some?))
  {
  }
}
