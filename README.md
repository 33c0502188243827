# PDF sales-quote extractor, modelled in Dafny

`streamlit_app.py` turns quote PDFs into spreadsheet records. This model covers the
extraction logic once the PDF reader is taken away. The extractor is handed three
things: the full text of the document, the table cells of every page under each
table-finder setting, and the visual lines of words.

There are two document types:

- **Cadre quote.** A Cadre quote gives one record per line item. It gets a tax item
  too when the quote states a non-zero tax. Every record has the 25 Cadre columns.
  The header fields are copied onto every record.
- **Voelkr document.** A Voelkr document gives a single record keyed by the ten
  Voelkr fields.

### Cadre line items

Cadre line items come from two strategies.

- **Table rows.** A row whose first cell is a line number and whose second cell is
  an item code is an item. Its description may be taken from the next row.
- **Word flow.** If the tables give nothing, a state machine runs over the visual
  lines. An item-start line opens an item. Up to three wordy lines become its
  description. A four-line lookahead fills in a missing price or total. A summary
  line ends the walk.

The chosen items are then deduplicated by (line number, item code, total). The first
item with each key is kept.

### Modules, one per file

| module | file | models |
|---|---|---|
| `Wrappers` | `wrappers.dfy` | `Option` and `Result` |
| `Text` | `text.dfy` | `str.strip`, `str.split`, `" ".join`, `re.sub(r"\s+", " ", …)`, `in` and `str.index` |
| `Tokens` | `tokens.dfy` | the money, quantity, item-code, item-start and summary-line patterns, and the "wordy token" test |
| `Dates` | `dates.dfy` | `normalize_date_str` |
| `Items` | `items.dfy` | the line-item record and its dedup key |
| `QuoteHeader` | `header.dfy` | `extract_header_info_cadre` |
| `Tax` | `tax.dfy` | `extract_tax_amount`, the `,.2f` rendering and the tax-row rule |
| `TableItems` | `table_items.dfy` | `_clean_cell`, `_row_has_item_signature`, `_parse_item_from_table_row`, `_line_is_desc_continuation`, `extract_line_items_by_tables` |
| `WordFlow` | `word_flow.dfy` | `_parse_item_row_tokens`, `extract_line_items_by_words` with its `flush` |
| `Hybrid` | `hybrid.dfy` | `extract_line_items_hybrid` |
| `CadreRecords` | `cadre_rows.dfy` | `CADRE_COLUMNS`, `_safe_float`, `build_rows_cadre` |
| `VoelkrRecords` | `voelkr_rows.dfy` | `VOELKR_FIELDS`, `VOELKR_REGEX_MAP`, `build_rows_voelkr` |
| `Router` | `router.dfy` | `parse_pdf`, `columns_for_system` |

### How the model is built

- **Loops.** The source's loops are methods with `while` or `for` loops. They cover:
  - the table row scan and the settings-variant loop;
  - the word-flow walk and its lookahead;
  - the dedup pass;
  - the record loops.

  Each method is proved equal to a recursive specification function. The lemmas are
  stated about those functions.
- **Patterns.** The fixed token patterns become predicates on strings. The free-text
  patterns of the Cadre header and the Voelkr field map are matched by functions
  passed in as parameters. The model fixes where each search happens and what is
  done with its groups.
- **Records.** Python dictionaries keyed by column names become Dafny maps over an
  enumeration of the columns. A constant list gives the order of the keys.

## Model

| member | source | states |
|---|---|---|
| `Text.LStrip` | streamlit_app.py:235 | the result is a suffix whose dropped prefix is all whitespace and which starts with a non-blank |
| `Text.RStrip` | streamlit_app.py:235 | the result is a prefix whose dropped suffix is all whitespace and which ends with a non-blank |
| `Text.Strip` | streamlit_app.py:241-242 | the result has no whitespace at either end |
| `Text.StripStart` | streamlit_app.py:241-242 | `s.strip()` is the slice of `s` between two all-whitespace runs |
| `Text.StripStripped` | streamlit_app.py:266 | stripping a stripped string changes nothing |
| `Text.Split` | streamlit_app.py:252 | `s.split()`: the maximal runs of non-whitespace, in order. It has no contract of its own; `Text.SplitWords`, `Text.SplitWordThen`, `Text.SplitSkipsSpaces` and `Text.SplitJoin` state it |
| `Text.SplitWords` | streamlit_app.py:252 | every token of `s.split()` is non-empty and holds no whitespace |
| `Text.SplitWordThen` | streamlit_app.py:252 | a word followed by whitespace (or nothing) is the first token, and the rest splits as before |
| `Text.SplitSkipsSpaces` | streamlit_app.py:252 | leading whitespace does not change the tokens |
| `Text.SplitOfSpaces` | streamlit_app.py:252 | an all-whitespace string has no tokens |
| `Text.SplitJoin` | streamlit_app.py:283 | splitting words joined by single spaces gives back the words (round trip) |
| `Text.SplitIgnoresTrailingSpaces` | streamlit_app.py:252 | trailing whitespace does not change the tokens |
| `Text.SplitStrip` | streamlit_app.py:434-442 | `s.strip().split() == s.split()` |
| `Text.SubSpaces` | streamlit_app.py:581 | `re.sub(r"\s+", " ", s)`. It has no contract of its own; `Text.SubSpacesShape` states its whole result |
| `Text.SubSpacesShape` | streamlit_app.py:581 | `re.sub(r"\s+", " ", s)` is the words joined by single spaces, with one space at each end that had whitespace |
| `Text.CollapseIsJoinedWords` | streamlit_app.py:581 | substituting and then stripping gives exactly the words joined by single spaces |
| `Text.JoinWordsStripped` | streamlit_app.py:283 | words joined by spaces are stripped, and non-empty when there is a word |
| `Text.NonSpaceHasWord` | streamlit_app.py:294 | a string with a non-blank character has a token |
| `Text.IndexOfFrom` | streamlit_app.py:172-173 | the first occurrence at or after `from`: nothing earlier matches, and None when there is none |
| `Text.ContainsIndex` | streamlit_app.py:170-173 | `pat in s` exactly when `s.index(pat)` finds it |
| `Tokens.IsMoney` | streamlit_app.py:133 | `^\$?[\d,]+\.\d{2,5}$`: a money token has at least four characters and ends in two digits |
| `Tokens.IsQty` | streamlit_app.py:134 | `^\d+(?:\.\d+)?$`: a quantity is non-empty and starts and ends with a digit |
| `Tokens.IsItemId` | streamlit_app.py:135 | `^[A-Z0-9][A-Z0-9.\-/_]+$`: an item code holds no whitespace |
| `Tokens.IsWordy` | streamlit_app.py:270-273 | a token that is not a quantity, money, capitals-and-slashes or digits; a non-empty one has a non-digit character |
| `Tokens.IsItemStart` | streamlit_app.py:136 | `ITEM_START_RE.match`: an item-start line has at least four characters and starts with a digit |
| `Tokens.IsSummaryLine` | streamlit_app.py:138-141 | `SUMMARY_STOP_LINE_RE.match`: a summary line has at least three characters; `Tokens.GrandTotalIsSummary`, `Tokens.LongerWordsAreNotSummary` and `Tokens.ItemStartIsNotSummary` pin down which lines match |
| `Tokens.LeadingDigits` | streamlit_app.py:136 | the longest all-digit prefix |
| `Tokens.MoneyTokens` | streamlit_app.py:260 | the money list has only money tokens and is no longer than its input |
| `Tokens.LastMoneyBefore` | streamlit_app.py:393-400 | the last money index before `n`: later tokens are not money, and None when there is no money token |
| `Tokens.MoneyTokensAtLast` | streamlit_app.py:260-262 | the money list ends with the token at the last money index, preceded by the money list of the tokens before it |
| `Tokens.FirstQtyIndex` | streamlit_app.py:255-258 | the first quantity-shaped token from `k`; None exactly when there is none |
| `Tokens.TenDollarsIsMoneyAndQty` | streamlit_app.py:133-134 | `"10.00"` has both the money and the quantity shape |
| `Tokens.NumericTokensAreNotWordy` | streamlit_app.py:296 | a money or quantity token is never wordy |
| `Tokens.SkipRegexSpaces` | streamlit_app.py:136 | `\s+` under `re.ASCII`: the run of regex whitespace from `i`, ending at a non-space |
| `Tokens.IdRunEnd` | streamlit_app.py:136 | the greedy run of item-code characters from `i` |
| `Tokens.ItemStartTokens` | streamlit_app.py:440-444 | an item-start line splits into at least two tokens, and the first is its line number |
| `Tokens.ItemStartIsNotSummary` | streamlit_app.py:436-440 | an item-start line never matches the summary pattern |
| `Tokens.DigitsAreNotSummary` | streamlit_app.py:138-141 | a line number is never a summary word |
| `Tokens.GrandTotalIsSummary` | streamlit_app.py:138-141 | `Grand\s+Total` matches ignoring case: "GRAND  total" is a summary line |
| `Tokens.LongerWordsAreNotSummary` | streamlit_app.py:138-141 | `Total\b` and `Tax\b` need a word end: "Totals" and "Taxable" are not summary lines |
| `Dates.PartLen` | streamlit_app.py:107 | a one- or two-digit run followed by `/` or `-` |
| `Dates.MatchHead` | streamlit_app.py:107 | a date matched at the start has a month and a day below 100 and a year below 10000 |
| `Dates.FindDate` | streamlit_app.py:107 | `re.search` for the date pattern gives in-range parts |
| `Dates.FindDateLeftmost` | streamlit_app.py:107 | `re.search` finds the leftmost match: None exactly when no position from `p` matches, and otherwise the match at a position before which nothing matches |
| `Dates.NormalizedYear` | streamlit_app.py:113-115 | in the normalized output, the year field reads as the first date's year plus 2000 when that year is below 100, and as the year itself otherwise |
| `Dates.NormalizeDateStr` | streamlit_app.py:104-109 | None exactly for None or ""; without a date, the input stripped |
| `Dates.FormatDateMatches` | streamlit_app.py:115 | the output has the `MM/DD/YYYY` shape and the date pattern reads it back as month, day and full year |
| `Dates.NormalizeDateFields` | streamlit_app.py:107-115 | with a date, the output is `MM/DD/YYYY` with the first date's month, day and full year |
| `Dates.TwoDigitYearExample` | streamlit_app.py:113-115 | "9/5/24" becomes "09/05/2024" |
| `Dates.BlankInputExample` | streamlit_app.py:105-109 | "" gives None and "  " gives "" |
| `Dates.NoMatchLater` | streamlit_app.py:107 | no date from `p` means no date from any later start |
| `Dates.NoMatchInPiece` | streamlit_app.py:107-109 | a piece of a string without a date has no date |
| `Dates.NormalizeIdempotent` | streamlit_app.py:104-115 | normalizing a non-empty output again returns it unchanged |
| `Dates.DateIdempotent` | streamlit_app.py:107-115 | a normalized date normalizes to itself |
| `Dates.NoDateIdempotent` | streamlit_app.py:108-109 | a stripped input without a date normalizes to itself |
| `QuoteHeader.CadreHeader` | streamlit_app.py:144-199 | the country is only ever "USA" |
| `QuoteHeader.ContactName` | streamlit_app.py:156-164 | a first name exactly when the contact has a word, and a last name only with a first name |
| `QuoteHeader.AddressBlock` | streamlit_app.py:170-176 | the block is never longer than the text; `QuoteHeader.AddressBlockBounds` states which slice it is |
| `QuoteHeader.ContactNameWords` | streamlit_app.py:156-164 | the first name is the first word of the contact; the last name exists exactly when there are two or more words, and together they split back into the contact's words |
| `QuoteHeader.AddressBlockBounds` | streamlit_app.py:170-176 | the block exists exactly when both markers are present; it runs from the first "Quoted For:" to the first "Quote Good Through", and is empty when the second comes first |
| `QuoteHeader.HeaderAddressFields` | streamlit_app.py:170-193 | address fields only from matches inside the block; country is "USA" exactly when the block names the United States of America; with a well-formed search, city, state and zip are set together, and so are quote number and date |
| `Tax.TaxBlock` | streamlit_app.py:203-210 | the block is never longer than the text; `Tax.TaxBlockIsBetween` states which slice it is |
| `Tax.TaxBlockIsBetween` | streamlit_app.py:203-210 | the block runs from the first "Product" to the first "Total" at or after it, and otherwise is the whole text |
| `Tax.FindTax` | streamlit_app.py:212 | the first position where `\bTax\s+([\d,]+\.\d{2})\b` matches, and None when it matches nowhere |
| `Tax.TaxMatchShape` | streamlit_app.py:212 | a matched amount is digits and commas, a point and two digits |
| `Tax.ExtractTaxAmount` | streamlit_app.py:202-216 | a found amount has the shape digits and commas, a point and two digits |
| `Tax.ExtractTaxAmountSource` | streamlit_app.py:212-216 | the amount comes from the block's first match, otherwise from the whole text's first match; None exactly when neither matches |
| `Tax.ValueOfGrouped` | streamlit_app.py:521 | the thousands-grouped rendering of `n` reads back as `n` |
| `Tax.FormatCentsRoundTrip` | streamlit_app.py:521 | the `,.2f` rendering of an amount in cents has the amount shape, reads back as the same cents, and is a money token |
| `Tax.WithTaxRow` | streamlit_app.py:519-522 | the items are kept in place and at most one row is added |
| `Tax.TaxRowRule` | streamlit_app.py:519-522 | a missing or zero amount adds nothing; a non-zero one appends exactly one last item "TAX"/"Tax"/"1" with an empty description and unit price equal to the total, both the amount |
| `TableItems.RowHasItemSignature` | streamlit_app.py:238-243 | a digit line number and an item code in the first two cells. It has no contract of its own; `TableItems.SignatureRowIsNotSummary` and `TableItems.ItemRowIffSignature` state it |
| `TableItems.TableRowItem` | streamlit_app.py:246-283 | the quantity is "" or quantity-shaped, and each price is "" or a money token |
| `TableItems.LineIsDescContinuation` | streamlit_app.py:287-299 | a non-empty line that starts neither an item nor a summary and has a wordy token. It has no contract of its own; `TableItems.CodesAndNumbersDoNotContinue` states it |
| `TableItems.NewlinesToSpaces` | streamlit_app.py:235 | every newline becomes a space, and nothing else changes |
| `TableItems.CleanCell` | streamlit_app.py:232-235 | a cleaned cell is stripped and holds no newline |
| `TableItems.CleanRows` | streamlit_app.py:340 | one cleaned row per table row |
| `TableItems.DescCells` | streamlit_app.py:264-275 | only non-empty stripped cells with a wordy token are kept |
| `TableItems.MarkedIndices` | streamlit_app.py:264-274 | the marked positions from `k`, strictly increasing, each marked, and every marked position among them |
| `TableItems.DescCellsKept` | streamlit_app.py:264-275 | the description cells are exactly the kept cells, stripped and in input order |
| `TableItems.FirstQtyIsFirst` | streamlit_app.py:254-258 | qty is the first quantity-shaped token, or "" exactly when there is none |
| `TableItems.RowPricesFromMoneyIndices` | streamlit_app.py:260-262 | total is the last money token; unit price is the one before it, or the total when there is one, and "" when there are none |
| `TableItems.TableRowDescriptionEmpty` | streamlit_app.py:264-283 | the description is empty exactly when no cell from the third on has a wordy token |
| `TableItems.CodesAndNumbersDoNotContinue` | streamlit_app.py:287-299 | a line of only quantities, money, capitals or slashes, and digits is never a continuation |
| `TableItems.NonEmptyCells` | streamlit_app.py:354 | only non-empty cells are joined |
| `TableItems.NonEmptyCellsKept` | streamlit_app.py:354 | the joined cells are exactly the non-empty cells, in row order |
| `TableItems.SignatureRowIsNotSummary` | streamlit_app.py:238-243 | a row with an item signature is never skipped as a summary row |
| `TableItems.ItemRowIffSignature` | streamlit_app.py:345-350 | a row gives an item exactly when it is not a summary row and has the item signature |
| `TableItems.ScanRowsShapes` | streamlit_app.py:349-359 | every scanned item has a digit line number and an item-code-shaped id |
| `TableItems.ScanViews` | streamlit_app.py:342-362 | the row scan gives at most one item per row |
| `TableItems.ScanIndices` | streamlit_app.py:342-362 | the rows that emit an item, strictly increasing, each a non-summary row with an item |
| `TableItems.ScanIndicesComplete` | streamlit_app.py:344-359 | a row emits an item exactly when it is not a summary row, it has an item, and the row before it did not absorb it as a continuation |
| `TableItems.ScanViewsIndexed` | streamlit_app.py:342-362 | item m of the scan is the item of the m-th emitting row, with the next row's line as description exactly when it absorbs that row |
| `TableItems.ScanRowsIndexed` | streamlit_app.py:342-362 | item m of the scan of the cleaned rows is parsed from a row with an item signature, in row order, with the continuation rule applied |
| `TableItems.ScanViewsCount` | streamlit_app.py:342-362 | at most one item per signature row, exactly one when no signature row is absorbed as a continuation, and none exactly when there is no signature row |
| `TableItems.CountItemRowsIsSignatureRows` | streamlit_app.py:342-362 | the item rows counted by the scan are exactly the rows with an item signature |
| `TableItems.ScanTable` | streamlit_app.py:337-362 | the items of one table: its rows cleaned, then scanned |
| `TableItems.ScanLoop` | streamlit_app.py:342-362 | the `while r` loop gives the row scan's items |
| `TableItems.PageItems` | streamlit_app.py:331-365 | the items of the first settings variant that yields any. It has no contract of its own; `TableItems.PageItemsFirstProductive` states it |
| `TableItems.PageItemsFirstProductive` | streamlit_app.py:331-365 | a page's items are those of the first settings variant that yields any, and nothing if none does |
| `TableItems.VariantItems` | streamlit_app.py:337-362 | the loop over one variant's tables concatenates their scans |
| `TableItems.PageTableItems` | streamlit_app.py:330-365 | the loop with `page_items_found` stops at the first productive variant |
| `TableItems.ExtractByTables` | streamlit_app.py:302-367 | the page loop concatenates the pages' items |
| `WordFlow.ParseItemRowTokens` | streamlit_app.py:382-402 | line number and item code are the first two tokens; a quantity is quantity-shaped and each price is a money token |
| `WordFlow.ParsedPrices` | streamlit_app.py:393-400 | total is the last money token after the first two, None exactly when there is none; unit price is the second-to-last, None exactly when there are fewer than two |
| `WordFlow.ParsedQty` | streamlit_app.py:387-391 | qty is the first quantity-shaped token after the first two, None exactly when there is none |
| `WordFlow.LineViewWellRead` | streamlit_app.py:434-444 | a stripped line's tokens are its words; an item-start line is not a summary line and has at least two tokens, the first a line number of at most four digits |
| `WordFlow.Backfill` | streamlit_app.py:447-463 | line number, code and quantity are kept, and so is every price the item line gave |
| `WordFlow.BackfillFields` | streamlit_app.py:447-463 | the lookahead keeps line number, id and qty; it fills only missing prices, from the lookahead window |
| `WordFlow.BackfillCut` | streamlit_app.py:450-455 | the lookahead never reads past a summary line |
| `WordFlow.WordRun` | streamlit_app.py:432-478 | the walk over the lines with `flush`. It has no contract of its own; `WordFlow.WordRunItems` and `WordFlow.WordRunIndexed` state it in full against the `StartItems` reference, and `WordFlow.WordRunShaped`, `WordFlow.WordRunCount`, `WordFlow.WordRunParts`, `WordFlow.WordRunCut` and `WordFlow.WordRunHeads` state its shape, count, cut and heads |
| `WordFlow.WordRunItems` | streamlit_app.py:432-478 | from any line, the walk gives the finished items, then the item being read completed with the description-like lines up to the next item-start or summary line (three at most), then one reference item per later item-start line |
| `WordFlow.WordRunIndexed` | streamlit_app.py:432-478 | item m of the walk is the item the m-th item-start line opens, with as description the first three description-like lines after it and before the next item-start or summary line |
| `WordFlow.OpenedFields` | streamlit_app.py:440-463 | an opened item has its own line's line number, code and quantity; each price is its own line's when given there, otherwise the one the lookahead window below it holds |
| `WordFlow.WordRunShaped` | streamlit_app.py:432-478 | every emitted item has a digit line number, a non-empty id without whitespace, and at most three wordy description lines |
| `WordFlow.WordRunCount` | streamlit_app.py:440-445 | one item per item-start line before the first summary line, plus the flushed ones |
| `WordFlow.StartIndices` | streamlit_app.py:440-444 | the item-start lines from `i` with at least two tokens, strictly increasing, one per counted start |
| `WordFlow.OpenedHead` | streamlit_app.py:444-463 | an opened item's line number and code are the first two tokens of its line, whatever the lookahead fills |
| `WordFlow.WordRunHeads` | streamlit_app.py:432-478 | the walk's items have, in order, the line numbers and codes of the flushed items followed by those of the item-start lines |
| `WordFlow.WordRunParts` | streamlit_app.py:467-474 | a description holds at most three lines, each with a wordy token |
| `WordFlow.WordRunCut` | streamlit_app.py:436-438 | the walk never reads past a summary line |
| `WordFlow.WordItemsStopAtSummary` | streamlit_app.py:436-438 | the lines after the first summary line do not change the result |
| `WordFlow.CleanItems` | streamlit_app.py:480-493 | never more items than raw ones, and every kept item has an item code |
| `WordFlow.CleanItemsKeepsCoded` | streamlit_app.py:480-493 | items that all have an id are all kept, in order, each with None turned into "" |
| `WordFlow.WordItemsShape` | streamlit_app.py:432-494 | one item per item-start line before the first summary line, each with a line number of at most four digits and a non-empty id |
| `WordFlow.WordItemsHeads` | streamlit_app.py:432-494 | item m has as line number and code the first two tokens of the m-th item-start line before the first summary line |
| `WordFlow.WordItemsIndexed` | streamlit_app.py:432-494 | item m of the word strategy is the finished item of the m-th item-start line before the first summary line: that line's fields, backfilled prices, and the description lines that follow it |
| `WordFlow.BackfillLoop` | streamlit_app.py:449-463 | the `for j` lookahead loop gives the backfilled item |
| `WordFlow.WordLoop` | streamlit_app.py:432-478 | the `while i` loop with `flush` gives the walk's raw items |
| `WordFlow.ExtractByWords` | streamlit_app.py:405-494 | the walk followed by the cleaning pass |
| `Hybrid.Dedup` | streamlit_app.py:502-510 | never more items than the input; `Hybrid.DedupIsFirstOccurrences` states which are kept |
| `Hybrid.DedupKeys` | streamlit_app.py:502-510 | dedup keeps every key and leaves no two items with the same key |
| `Hybrid.DedupIsFirstOccurrences` | streamlit_app.py:502-510 | dedup keeps exactly the first item of each key, in input order |
| `Hybrid.FirstOccurrencesIn` | streamlit_app.py:502-510 | every kept item comes from the input |
| `Hybrid.DedupOfDistinct` | streamlit_app.py:502-510 | input without repeated keys is returned unchanged |
| `Hybrid.DedupIdempotent` | streamlit_app.py:502-510 | dedup twice is dedup once |
| `Hybrid.HybridItems` | streamlit_app.py:497-510 | dedup of the table items, or of the word items when the tables give none. It has no contract of its own; `Hybrid.HybridSource` states it |
| `Hybrid.HybridSource` | streamlit_app.py:497-500 | table items win; word-flow items are used only when the tables give none; empty exactly when both are empty |
| `Hybrid.DedupItems` | streamlit_app.py:502-510 | the loop with `seen` and `out` gives the dedup |
| `Hybrid.ExtractHybrid` | streamlit_app.py:497-510 | table-or-word selection, then dedup |
| `CadreRecords.CadreColumnNames` | streamlit_app.py:31-57 | 25 distinct columns, "ReferralManager" first and "PDF" at index 23 |
| `CadreRecords.CadreCell` | streamlit_app.py:528-553 | the value of one column. It has no contract of its own; `CadreRecords.CadreCellBroadcast`, `CadreRecords.CadreItemCells`, `CadreRecords.CadreFixedCells` and `CadreRecords.CadreDateCells` state it |
| `CadreRecords.CadreCellBroadcast` | streamlit_app.py:528-553 | every column other than the four item columns has the same value whatever the item; a header column holds the header's value |
| `CadreRecords.CadreItemCells` | streamlit_app.py:544-547 | item id and description come from the item; a price cell is None exactly when its text is "" |
| `CadreRecords.CadreFixedCells` | streamlit_app.py:529-552 | Brand is "Cadre Wire Group", PDF is the file name, and the six unfilled columns are None |
| `CadreRecords.CadreDateCells` | streamlit_app.py:532-548 | the two date columns hold the header's dates normalized; an absent or empty quote date is None |
| `CadreRecords.CadreRowsBroadcast` | streamlit_app.py:524-555 | one record per item, in order, each with exactly the Cadre columns; every record agrees outside the item columns |
| `CadreRecords.CadreTaxRecord` | streamlit_app.py:519-526 | a due tax adds exactly one last record, made from the tax item with both prices the rendered amount |
| `CadreRecords.BuildRowsCadre` | streamlit_app.py:513-555 | header, hybrid items plus tax row, then one record per item |
| `CadreRecords.CadreRecords` | streamlit_app.py:524-555 | the record loop gives one record per item |
| `VoelkrRecords.VoelkrFieldList` | streamlit_app.py:65-78 | ten fields, no field listed twice |
| `VoelkrRecords.PatternsGiven` | streamlit_app.py:86-98 | every field but "PDF" has a pattern |
| `VoelkrRecords.VoelkrRowShape` | streamlit_app.py:568-590 | exactly the Voelkr fields as keys, "PDF" is the file name, and every other field holds its own value |
| `VoelkrRecords.VoelkrValue` | streamlit_app.py:571-588 | a field other than "PDF" gets a non-empty value only when its pattern matches the text |
| `VoelkrRecords.MatchedValue` | streamlit_app.py:580-585 | outside date fields the value is the matched text's words joined by single spaces |
| `VoelkrRecords.VoelkrUnmatched` | streamlit_app.py:574-588 | a field without a pattern, with a bad pattern or without a match stays "" |
| `VoelkrRecords.MatchedValueShape` | streamlit_app.py:580-585 | a matched value has its whitespace collapsed; a date field holding a date becomes the date normalized to `MM/DD/YYYY`, otherwise it is kept |
| `VoelkrRecords.VoelkrMatched` | streamlit_app.py:577-585 | a field whose pattern matches holds the collapsed match; in a date field that holds a date, that date normalized to `MM/DD/YYYY` |
| `VoelkrRecords.VoelkrDateField` | streamlit_app.py:583 | "DocumentDate" is a date field |
| `VoelkrRecords.VoelkrPartialStart` | streamlit_app.py:568-569 | the loop starts from all fields "" and "PDF" set to the file name |
| `VoelkrRecords.VoelkrPartialStep` | streamlit_app.py:571-585 | each iteration sets only its own field |
| `VoelkrRecords.VoelkrPartialEnd` | streamlit_app.py:571-590 | after the last field the row is the Voelkr record |
| `VoelkrRecords.BuildRowsVoelkr` | streamlit_app.py:561-590 | the field loop gives exactly one record, the Voelkr record |
| `Router.ParsePdf` | streamlit_app.py:596-605 | Cadre gives its records and no warning; Voelkr gives its single record and its warnings; any other type is the error naming it; every record has exactly its system's columns |
| `Router.CadreKeys` | streamlit_app.py:524-555 | every Cadre record's keys are the listed columns |
| `Router.VoelkrKeys` | streamlit_app.py:568 | the Voelkr record's keys are the listed fields |
| `Router.NoPlaceholderWarning` | streamlit_app.py:602-603 | with ten fields there is no placeholder warning |
| `Router.ColumnsForSystem` | streamlit_app.py:608-613 | the column names of a system type. It has no contract of its own; `Router.ColumnsForKnownSystems` states it |
| `Router.ColumnsForKnownSystems` | streamlit_app.py:608-613 | empty exactly for an unknown type; 25 Cadre columns with "PDF" at 23; ten Voelkr fields with "PDF" first |

## Left out

- **PDF reading.** Reading the PDF is not part of this model: `extract_full_text`,
  `page.extract_tables` and `page.extract_words`. The full text, the tables (page by
  settings variant by table) and the visual lines are inputs (`CadreRecords.Document`).
  A table finder that raises is modelled as one that finds no tables.
- **Word grouping.** `_group_words_into_rows` and `_row_to_text` (streamlit_app.py:370-379)
  are not modelled. They bucket words by floating-point height. The visual lines are
  given.
- **Streamlit and output.** The user interface, session state, ZIP and CSV packaging
  and the pandas column projection are not modelled. The key order of Python
  dictionaries is given by the `Columns` and `Fields` lists beside the maps.
- **Unicode.** Whitespace, digits, case and word boundaries are ASCII only. Python's
  `str.isspace`, `str.isdigit`, `re.IGNORECASE` and `\b` also accept other Unicode
  characters.
- `CadreRecords.SafeFloat`: the float conversion is not modelled. A non-empty price
  is kept as `SafeFloatOf(text)`. The source can also give None for text that is not
  a number.
- `Tax.FormatCentsRoundTrip`: the amount is kept in exact cents rather than as a
  float. A tax amount with more than about 15 significant digits would be rendered
  differently by the source.
- `QuoteHeader.CadreHeader`: the header patterns are matched by a search function
  passed in as a parameter.
  - The model fixes which text each pattern is searched in, which group goes to
    which field, and which groups are stripped.
  - The regex semantics are not modelled.
  - A participating group that is None is not modelled.
- `QuoteHeader.HeaderAddressFields`: the "field set exactly when its pattern matched"
  half holds only for a search that returns as many groups as the pattern has.
- `VoelkrRecords.VoelkrValue`: the Voelkr patterns are matched by a search function
  passed in as a parameter and keyed by field. Its three outcomes are:
  - a bad pattern;
  - no match;
  - the text of group 1, or of the whole match when the pattern has no group.

  The pattern texts are not interpreted.
- `TableItems.ScanViewsCount`: the count is exact only when no signature row follows
  an item with an empty description as a continuation line. Such a row is absorbed
  into the description, as in the source. `TableItems.ScanViewsIndexed` and
  `TableItems.ScanIndicesComplete` state exactly which rows give items.
