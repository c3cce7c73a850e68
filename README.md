# Purchasing manager helper: requisition parser and RFQ prompts

This project models three parts of the purchasing manager helper and proves what each one guarantees:

- **The requisition spreadsheet parser** (`ExcelParser.parseRequisitionFile` with `getString`, `getNumber` and `getDate`). It turns the rows of an uploaded sheet into one requisition header and a numbered list of line items, or it fails with one of a fixed set of errors.
- **The RFQ generator** (`RFQSchema`, `validateRFQ`, `createRFQPrompt`). It checks an AI-written request for quotation against subject and body length bounds, and it builds the prompt that asks for one.
- **The RFQ editor** (`RFQEditSchema`, `validateRFQEdit`, `createRFQEditPrompt`). It does the same for an edit of an existing RFQ.

## Modules

- `Wrappers` holds `Option` and `Result`. A thrown `Error` becomes an `Err`.
- `RequisitionTypes` holds the requisition header and line item as the parser produces them, from `types/requisition.ts`.
- `JsText` covers the JavaScript string built-ins the core relies on:
  - `trim()`, with ECMAScript's white-space set.
  - `Array.prototype.join`.
  - Decimal rendering of integers and zero padding.
  - The UTF-16 length that `string.length` reports.
  - Template literals, as the concatenation of their pieces.
- `JsDate` covers `toISOString()` of a valid date followed by `split('T')[0]`.
- `ExcelParser` is the parser.
  - Each row is a map from column header to cell. A cell is `Null` or the text `String(value)` gives; a cell the reader left out has no key.
  - The header comes from the first row only, every later row is an item candidate, and the first row with a bad quantity ends the parse with its error (lib/excel/parser.ts:25, 51-61).
  - `Parse` is the parse as a function. `ParseRequisitionFile` is the same parse written as the source's indexed loop, which pushes items, `continue`s and returns early; it is proved equal to `Parse`.
- `ExcelParserProps` states the parser's guarantees column by column and row by row.
- `ZodSchema` is the part of zod the schemas use:
  - A two-field object schema with `.min`/`.max` string bounds.
  - Lengths in UTF-16 code units.
  - Every check run, and the issues reported in field order.
- `RfqGenerator` and `RfqEditor` hold the validators and prompt builders.

## How the generator's prompt is modelled

The prompt is built in three layers:

- `RenderPrompt(fixed, req, items)` is the template of `createRFQPrompt`. It works for any long fixed paragraphs (`FixedText`) and any rendered-items text.
- `CreateRfqPrompt(req, showNumber)` is exactly `RenderPrompt(RfqText, req, ItemsText(req.items, showNumber))`. `RfqText` holds the template's own paragraphs.
- `ItemsText` is `items.map(...).join('\n')`.

The conditional parts (`vessel_imo ? … : ''`, `item.item_description ? … : ''`, `item.specifications ? … : ''`, `custom_terms ? … : ''`) are `Conditional`, which follows JavaScript truthiness: present and non-empty.

Each conditional part is proved to appear exactly when it should, by comparing the text with and without that field. With the field, the text is the one without it plus the section inserted at a stated offset. With the field empty or missing, the two texts are equal. The IMO line and the terms section are proved at the level of the prompt (`ImoLineExactlyWhenGiven`, `TermsSectionExactlyWhenGiven` and their `CreateRfqPrompt…` versions). The description and specifications lines are proved at the level of the item's block (`DescriptionLineExactlyWhenGiven`, `SpecificationsLineExactlyWhenGiven`), and `ItemsInInputOrder` places that block verbatim in the prompt. No lemma compares two whole prompts that differ in one item's description or specifications.

## Model

| member | source | states |
|---|---|---|
| ExcelParser.FirstUsable | lib/excel/parser.ts:88-93 | a found position is in range and its cell is neither missing, null nor '' |
| ExcelParser.GetString | lib/excel/parser.ts:83-99 | fails exactly when the column is required and no candidate is usable, and then with "Required column not found" naming all candidates; a result neither starts nor ends with white space, and is non-empty only when some candidate is usable |
| ExcelParser.GetNumber | lib/excel/parser.ts:104-113 | only two errors, a missing column or an invalid number; a result is parseFloat of the column's required text |
| ExcelParser.GetDate | lib/excel/parser.ts:118-128 | only two errors, a missing column or an invalid date; a result is the ISO date part of the parsed date and is never '' |
| ExcelParser.ParseHeader | lib/excel/parser.ts:27-46 | a parsed header has status draft, a non-empty vessel name, port name, delivery date and currency |
| ExcelParser.CollectItems | lib/excel/parser.ts:51-71 | the item loop keeps the items so far and appends items numbered on from the count, each named and with quantity > 0 |
| ExcelParser.Parse | lib/excel/parser.ts:20-77 | no rows fail "Excel file is empty"; a header failure is the parse's failure; success has a non-empty item list numbered 1..N, each named with quantity > 0, and the first row's header |
| ExcelParser.ParseRequisitionFile | lib/excel/parser.ts:20-77 | the loop with its `continue`, early returns and pushes returns exactly what Parse defines |
| ExcelParser.ItemName | lib/excel/parser.ts:55 | the item name neither starts nor ends with white space, and is non-empty only when the row has a usable item-name column |
| ExcelParser.LineItem | lib/excel/parser.ts:63-70 | description, unit and specifications neither start nor end with white space, and each is non-empty only when the row has a usable column for it |
| ExcelParser.PrefixThenLast | lib/excel/parser.ts:63-64 | a list that starts with items plus one pushed item starts with items, followed by that item |
| ExcelParserProps.FirstUsableSpec | lib/excel/parser.ts:88-93 | the candidates are tried in list order: none before the found one is usable, and none is found exactly when none is usable |
| ExcelParserProps.GetStringFirstUsable | lib/excel/parser.ts:88-93 | the result is the trimmed text of the first usable candidate |
| ExcelParserProps.GetStringNoColumn | lib/excel/parser.ts:95-98 | with no usable candidate: the required error when required, '' otherwise |
| ExcelParserProps.GetStringHasColumn | lib/excel/parser.ts:88-92 | with a usable candidate, the column is read and does not fail, required or not |
| ExcelParserProps.GetStringBlankFirstUsable | lib/excel/parser.ts:88-93 | a first usable cell of only white space gives '' and later candidates are not tried instead |
| ExcelParserProps.GetStringIgnoresLaterColumns | lib/excel/parser.ts:88-93 | rows that agree up to the first usable candidate give the same result, whatever the later columns hold |
| ExcelParserProps.GetNumberSpec | lib/excel/parser.ts:104-113 | a missing column fails first; otherwise the result is InvalidNumber of the text or parseFloat's number |
| ExcelParserProps.GetDateSpec | lib/excel/parser.ts:118-128 | a missing column fails first; otherwise the result is InvalidDate of the text or the date part of the parsed date |
| ExcelParserProps.HeaderFields | lib/excel/parser.ts:25-35 | a parsed header takes vessel, port and date from their columns; IMO and notes are their columns' text, '' without a column; currency is USD when absent or blank, else the column's text |
| ExcelParserProps.HeaderErrorOrder | lib/excel/parser.ts:27-43 | header failures in order: vessel column, port column, delivery date (missing or invalid), then blank vessel name, then blank port name |
| ExcelParserProps.HeaderParsesOtherwise | lib/excel/parser.ts:27-46 | with vessel and port columns, a valid delivery date and a non-blank vessel name and port name, the header parses |
| ExcelParserProps.DeliveryDateCheckNeverFires | lib/excel/parser.ts:44-46 | the header never fails "Delivery date is required" |
| ExcelParserProps.NamedRows | lib/excel/parser.ts:55-56 | the listed rows are in range, carry an item name and are strictly increasing |
| ExcelParserProps.NamedRowsComplete | lib/excel/parser.ts:55-56 | every row from the start index on that carries an item name is listed |
| ExcelParserProps.NamedRowsNone | lib/excel/parser.ts:55-56 | with no named row, none is listed |
| ExcelParserProps.LineItemFields | lib/excel/parser.ts:63-70 | an item takes its line number, name and quantity as given; description, unit and specifications are their columns' text, '' without a column |
| ExcelParserProps.ItemNameBlankExactly | lib/excel/parser.ts:55-56 | a row is skipped exactly when it has no usable item-name column or the first one holds only white space |
| ExcelParserProps.SkipUnnamedRow | lib/excel/parser.ts:55-56 | a row without an item name is skipped without error |
| ExcelParserProps.StopAtBadRow | lib/excel/parser.ts:58-61 | a named row with a missing, non-numeric, zero or negative quantity ends the loop with that error |
| ExcelParserProps.TakeGoodRow | lib/excel/parser.ts:63-70 | a named row with an accepted quantity appends its item, numbered count + 1, and the loop goes on |
| ExcelParserProps.CollectItemsOk | lib/excel/parser.ts:51-71 | when the loop succeeds, every named row has an accepted quantity, and item k is the k-th named row's item, in row order |
| ExcelParserProps.CollectItemsAccepted | lib/excel/parser.ts:51-71 | when every named row has an accepted quantity, the loop succeeds |
| ExcelParserProps.CollectItemsFirstError | lib/excel/parser.ts:58-61 | the first named row with an unaccepted quantity decides the error, and nothing else is returned |
| ExcelParserProps.CollectItemsReadsSuffix | lib/excel/parser.ts:51-52 | the loop from index i reads only rows i onwards |
| ExcelParserProps.ParseSucceedsIff | lib/excel/parser.ts:20-77 | the parse succeeds exactly when there are rows, the first row's header parses, some later row is named, and every named later row has an accepted quantity |
| ExcelParserProps.ParseItems | lib/excel/parser.ts:63-77 | on success the items are the named rows after the first, in row order, numbered 1..N, with the first row's header |
| ExcelParserProps.ParseFirstBadRow | lib/excel/parser.ts:58-61 | the first named row with a bad quantity aborts the whole parse with its error, citing data index + 1 |
| ExcelParserProps.ParseAbortsOnBadRow | lib/excel/parser.ts:58-61 | any named later row with a bad quantity makes the whole parse fail |
| ExcelParserProps.ParseNoItems | lib/excel/parser.ts:73-75 | a good header with no named later row fails "No items found in Excel file" |
| ExcelParserProps.FirstRowNeverItem | lib/excel/parser.ts:25-51 | replacing the first row by another parseable header changes the header and leaves the items unchanged |
| ExcelParserProps.QuantityMessageNamesRow | lib/excel/parser.ts:60 | different rows give different quantity messages |
| ExcelParserProps.MessageShowsKind | lib/excel/parser.ts:21-123 | each of the nine error messages (lines 21, 39, 42, 45, 60, 74, 96, 109, 123) tells by its opening characters which error it reports |
| ExcelParserProps.MessageIdentifiesError | lib/excel/parser.ts:21-123 | two errors with the same message are the same error, row, number text and date text included, except for two missing-column errors |
| ExcelParserProps.ColumnListsCanShareMessage | lib/excel/parser.ts:96 | that exception is real: a column name holding " or " joins to the same message as two names |
| JsText.TrimSpec | lib/excel/parser.ts:91 | trim() keeps the part between leading and trailing white space, which does not start or end with white space; it is empty exactly when the text is all white space |
| JsText.TrimStartSpec | lib/excel/parser.ts:91 | dropping leading white space gives a suffix that does not start with white space, and drops only white space |
| JsText.TrimEndSpec | lib/excel/parser.ts:91 | dropping trailing white space gives a prefix that does not end with white space, and drops only white space |
| JsText.TrimIdempotent | lib/excel/parser.ts:91 | trimming twice is trimming once |
| JsText.JoinPartAt | lib/ai/prompts/rfq-generator.ts:52-57 | join keeps each part verbatim at its offset, and the next part starts after it |
| JsText.NatToString | lib/ai/prompts/rfq-generator.ts:53 | a line number renders as non-empty decimal digits without a leading zero |
| JsText.DecimalRoundTrip | lib/ai/prompts/rfq-generator.ts:53 | reading back a rendered number gives the number |
| JsText.ZeroPad | lib/excel/parser.ts:127 | padding with zeros gives at least the width in digits and still denotes the number |
| JsText.Utf16Length | lib/ai/prompts/rfq-generator.ts:4-5 | a string's UTF-16 length lies between its code point count and twice that |
| JsDate.SplitFirst | lib/excel/parser.ts:127 | split('T')[0] is the longest prefix without 'T', and 'T' follows it when it is shorter than the text |
| JsDate.SplitFirstJoin | lib/excel/parser.ts:127 | splitting text without 'T', followed by 'T' and more, gives back that text |
| JsDate.YearText | lib/excel/parser.ts:127 | the ISO year is non-empty and has no 'T' |
| JsDate.IsoDatePart | lib/excel/parser.ts:127 | the date string is exactly the date part of the ISO form, never '' |
| JsDate.DateTextFields | lib/excel/parser.ts:127 | for years 0..9999 the date part is YYYY-MM-DD, whose digit groups denote the date's year, month and day |
| ZodSchema.StringIssues | lib/ai/prompts/rfq-generator.ts:4-5 | no issue exactly when the value is a string within bounds; a too-small or too-big issue exactly when that bound is broken |
| ZodSchema.Parse | lib/ai/prompts/rfq-generator.ts:90-92 | success exactly when both fields are strings within bounds, returning just subject and body; failure carries at least one issue |
| ZodSchema.IssuesInFieldOrder | lib/ai/prompts/rfq-generator.ts:3-6 | subject issues precede body issues, and a bad subject is reported first whatever the body |
| RfqGenerator.ValidateRfq | lib/ai/prompts/rfq-generator.ts:90-92 | accepts exactly when subject is 10..200 and body 50..5000 units long, and returns the same subject and body |
| RfqGenerator.ValidateRfqSubjectIssue | lib/ai/prompts/rfq-generator.ts:4 | a subject under 10 or over 200 units is rejected with the bound it breaks |
| RfqGenerator.ValidateRfqBodyIssue | lib/ai/prompts/rfq-generator.ts:5 | a body under 50 or over 5000 units is rejected with the bound it breaks |
| RfqGenerator.Conditional | lib/ai/prompts/rfq-generator.ts:46 | a conditional part is non-empty exactly when its value is present and non-empty, and is then the label and the value |
| RfqGenerator.UnitText | lib/ai/prompts/rfq-generator.ts:54 | a missing unit renders as '', a given unit as itself |
| RfqGenerator.ItemBlock | lib/ai/prompts/rfq-generator.ts:52-57 | an item's block opens a new line and ends with a newline |
| RfqGenerator.ItemsText | lib/ai/prompts/rfq-generator.ts:52-57 | the rendered items are empty exactly when there are no items |
| RfqGenerator.ItemBlocks | lib/ai/prompts/rfq-generator.ts:52-57 | one rendered block per item |
| RfqGenerator.ItemBlocksAt | lib/ai/prompts/rfq-generator.ts:52-57 | block k renders item k |
| RfqGenerator.VesselDetailsAlwaysPresent | lib/ai/prompts/rfq-generator.ts:44-49 | vessel name, port, delivery date and currency each appear on a line of their own |
| RfqGenerator.CompanyDetailsAlwaysPresent | lib/ai/prompts/rfq-generator.ts:59-62 | company name, email and phone each appear on a line of their own |
| RfqGenerator.ImoLineExactlyWhenGiven | lib/ai/prompts/rfq-generator.ts:46 | with a non-empty IMO the prompt is the IMO-less prompt with "- IMO: " and the IMO inserted after the vessel-name line; otherwise it is that prompt |
| RfqGenerator.TermsSectionExactlyWhenGiven | lib/ai/prompts/rfq-generator.ts:79 | with non-empty terms the prompt is the terms-less prompt with the ADDITIONAL TERMS section inserted just before the closing text; otherwise it is that prompt |
| RfqGenerator.FieldsEndWithHeading | lib/ai/prompts/rfq-generator.ts:47-51 | the vessel-details lines end with the ITEMS REQUIRED heading |
| RfqGenerator.ItemsAfterHeading | lib/ai/prompts/rfq-generator.ts:51-57 | the rendered items sit verbatim right after the ITEMS REQUIRED heading |
| RfqGenerator.JoinedPartInPrompt | lib/ai/prompts/rfq-generator.ts:52-57 | each joined part sits verbatim at its join offset after the heading |
| RfqGenerator.ItemBlockInPrompt | lib/ai/prompts/rfq-generator.ts:52-57 | block k of the rendered items sits verbatim at its join offset after the heading |
| RfqGenerator.CreateRfqPromptStatesDetails | lib/ai/prompts/rfq-generator.ts:42-62 | every vessel and company detail appears in the prompt on a line of its own |
| RfqGenerator.CreateRfqPromptImoLine | lib/ai/prompts/rfq-generator.ts:46 | the prompt has the IMO line exactly when the IMO is non-empty |
| RfqGenerator.CreateRfqPromptTermsSection | lib/ai/prompts/rfq-generator.ts:79 | the prompt has the ADDITIONAL TERMS section exactly when the terms are non-empty, just before the closing text |
| RfqGenerator.ItemsInInputOrder | lib/ai/prompts/rfq-generator.ts:52-57 | item k's block is in the prompt at its own offset, and item k+1's block starts after it ends |
| RfqGenerator.ItemBlockOpening | lib/ai/prompts/rfq-generator.ts:53-54 | a block opens with "line_number. item_name", then "   Quantity: <quantity> <unit>" |
| RfqGenerator.DescriptionLineExactlyWhenGiven | lib/ai/prompts/rfq-generator.ts:55 | the Description line is inserted after the quantity line exactly when the description is non-empty |
| RfqGenerator.SpecificationsLineExactlyWhenGiven | lib/ai/prompts/rfq-generator.ts:56 | the Specifications line is inserted before the block's final newline exactly when the specifications are non-empty |
| RfqEditor.ValidateRfqEdit | lib/ai/prompts/rfq-editor.ts:46-48 | accepts exactly when subject is 10..200 and body 50..5000 units long, and returns the same subject and body |
| RfqEditor.ValidateRfqEditSubjectIssue | lib/ai/prompts/rfq-editor.ts:4 | a subject under 10 or over 200 units is rejected with the bound it breaks |
| RfqEditor.ValidateRfqEditBodyIssue | lib/ai/prompts/rfq-editor.ts:5 | a body under 50 or over 5000 units is rejected with the bound it breaks |
| RfqEditor.ValidateRfqEditAgreesWithValidateRfq | lib/ai/prompts/rfq-editor.ts:3-6 | the edit validator gives exactly the generator validator's result, issues included |
| RfqEditor.EditPromptLength | lib/ai/prompts/rfq-editor.ts:17-43 | the prompt's length is the fixed text's plus the three inputs' |
| RfqEditor.EditPromptEmbedsInputs | lib/ai/prompts/rfq-editor.ts:21-27 | subject, body and instruction appear verbatim, in that order, each right after its fixed text |
| RfqEditor.EditPromptFixedText | lib/ai/prompts/rfq-editor.ts:17-43 | the prompt opens with the fixed introduction, has the Body and USER EDIT INSTRUCTION headings after subject and body, and ends with the fixed closing |
| RfqEditor.EditPromptInjective | lib/ai/prompts/rfq-editor.ts:17-43 | with no conditional parts, two prompts agree only if their inputs do (for subjects and bodies of equal lengths) |

## Left out

- Reading the workbook (`XLSX.read`, the first sheet, `sheet_to_json`, lib/excel/parser.ts:15-18) is a foreign library. The model starts from the row sequence it produces.
- Cells are given as the text `String(value)` would make of them. The reader's typing of numbers, booleans and dates is not modelled.
- `parseFloat` and `new Date(string)` are host functions. They are parameters of `Host`: `parseFloat` returns None for NaN, and `new Date` returns None for an invalid date or the date's UTC fields otherwise. A quantity is a real, so floating-point rounding and `Infinity` are not modelled.
- JavaScript's number-to-string conversion of a quantity in the prompt is the parameter `showNumber`. A line number in the prompt is rendered as a non-negative integer.
- Strings are sequences of Unicode code points. Lone UTF-16 surrogates cannot be represented, and `Utf16Length` counts two units per astral code point.
- Of zod, the model holds only the object and string type checks, the length bounds, the issue order and the key stripping. Issue messages and other issue fields are not modelled. A thrown `ZodError` is an `Err` carrying its issues.
- The template functions themselves (`RenderPrompt`, `CreateRfqPrompt`, `CreateRfqEditPrompt`) carry no contract of their own. What `RenderPrompt` and `CreateRfqPrompt` guarantee is stated by `VesselDetailsAlwaysPresent`, `CompanyDetailsAlwaysPresent`, `ImoLineExactlyWhenGiven`, `TermsSectionExactlyWhenGiven`, `ItemsAfterHeading`, `ItemsInInputOrder` and the `CreateRfqPrompt…` lemmas; what `CreateRfqEditPrompt` guarantees is stated by the `EditPrompt…` lemmas.
- `Message` has no contract of its own: what it guarantees is stated by `MessageShowsKind`, `MessageIdentifiesError` and `QuantityMessageNamesRow`.
- The AI client with its retries and logging, e-mail sending, the database, the API routes and the UI are outside this model. So are the shapes in `types/` beyond the fields the parser fills.
