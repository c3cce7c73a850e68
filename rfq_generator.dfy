/**
 * The RFQ generator: the schema an AI-written RFQ must satisfy, its
 * validator, and the prompt that asks for one.
 */
module RfqGenerator {
  import opened Wrappers
  import opened JsText
  import opened ZodSchema

  // ----------------------------------------------------------------- schema

  /** subject: 10..200 units, body: 50..5000 units. */
  const RfqSchema := Schema(Bounds(10, 200), Bounds(50, 5000))

  /** `validateRFQ`: parse a model answer against the RFQ schema. */
  function ValidateRfq(input: Input): (r: Result<Email, seq<Issue>>)
    ensures r.Ok? <==>
      && input.Object? && input.subject.Some? && input.body.Some?
      && 10 <= Utf16Length(input.subject.value) <= 200
      && 50 <= Utf16Length(input.body.value) <= 5000
    ensures r.Ok? ==> r.value == Email(input.subject.value, input.body.value)
    ensures r.Err? ==> |r.error| > 0
  {
    Parse(RfqSchema, input)
  }

  /** A subject out of bounds is reported with the bound it breaks. */
  lemma ValidateRfqSubjectIssue(subject: string, body: Option<string>)
    ensures Utf16Length(subject) < 10 ==>
      ValidateRfq(Object(Some(subject), body)).Err?
      && Issue(["subject"], TooSmall(10)) in ValidateRfq(Object(Some(subject), body)).error
    ensures Utf16Length(subject) > 200 ==>
      ValidateRfq(Object(Some(subject), body)).Err?
      && Issue(["subject"], TooBig(200)) in ValidateRfq(Object(Some(subject), body)).error
  {
    var issues := StringIssues(["subject"], Some(subject), RfqSchema.subject);
    var rest := StringIssues(["body"], body, RfqSchema.body);
    if Utf16Length(subject) < 10 || Utf16Length(subject) > 200 {
      assert ValidateRfq(Object(Some(subject), body)).error == issues + rest;
    }
  }

  /** A body out of bounds is reported with the bound it breaks. */
  lemma ValidateRfqBodyIssue(subject: Option<string>, body: string)
    ensures Utf16Length(body) < 50 ==>
      ValidateRfq(Object(subject, Some(body))).Err?
      && Issue(["body"], TooSmall(50)) in ValidateRfq(Object(subject, Some(body))).error
    ensures Utf16Length(body) > 5000 ==>
      ValidateRfq(Object(subject, Some(body))).Err?
      && Issue(["body"], TooBig(5000)) in ValidateRfq(Object(subject, Some(body))).error
  {
    var first := StringIssues(["subject"], subject, RfqSchema.subject);
    var issues := StringIssues(["body"], Some(body), RfqSchema.body);
    if Utf16Length(body) < 50 || Utf16Length(body) > 5000 {
      assert ValidateRfq(Object(subject, Some(body))).error == first + issues;
    }
  }

  // ----------------------------------------------------------------- prompt

  /** An item as the prompt receives it; None is a property left undefined. */
  datatype PromptItem = PromptItem(
    lineNumber: nat,
    itemName: string,
    itemDescription: Option<string>,
    quantity: real,
    unit: Option<string>,
    specifications: Option<string>)

  /** The prompt's parameters. */
  datatype RfqRequest = RfqRequest(
    vesselName: string,
    vesselImo: Option<string>,
    portName: string,
    deliveryDate: string,
    currency: string,
    items: seq<PromptItem>,
    companyName: string,
    companyEmail: string,
    companyPhone: string,
    customTerms: Option<string>)

  /** A JavaScript truthiness test on an optional string: defined and non-empty. */
  predicate Truthy(o: Option<string>) {
    o.Some? && o.value != ""
  }

  /** `o ? before + o + after : ''` */
  function Conditional(o: Option<string>, before: string, after: string): (r: string)
    ensures Truthy(o) <==> r != []
    ensures Truthy(o) ==> r == before + o.value + after
  {
    if Truthy(o) then before + o.value + after else ""
  }

  /** `item.unit || ''` */
  function UnitText(unit: Option<string>): (r: string)
    ensures unit.None? ==> r == ""
    ensures unit.Some? ==> r == unit.value
  {
    if Truthy(unit) then unit.value else ""
  }

  /** The opening request, line by line. */
  const PreambleLines := [
    "You are a professional maritime purchasing assistant. Generate a formal Request for Quotation (RFQ) email.",
    "",
    ""]

  const Preamble := Join(PreambleLines, "\n")

  const VesselHeading := "## VESSEL DETAILS"

  const VesselNameLabel := "- Vessel Name: "

  const ImoLabel := "- IMO: "

  const PortLabel := "- Port: "

  const DeliveryDateLabel := "- Delivery Date: "

  const CurrencyLabel := "- Currency: "

  const ItemsHeading := "\n## ITEMS REQUIRED\n"

  const CompanyHeading := "\n\n## COMPANY DETAILS"

  const CompanyLabel := "- Company: "

  const EmailLabel := "- Email: "

  const PhoneLabel := "- Phone: "

  /** The INSTRUCTIONS section, line by line (it opens and closes with a line break). */
  const InstructionsLines := [
    "",
    "## INSTRUCTIONS",
    "Generate a professional, formal RFQ email in maritime business style.",
    "",
    "**Subject line:** Should be clear, specific, and include vessel name and port.",
    "",
    "**Email body:** Should include:",
    "1. Professional greeting",
    "2. Reference to vessel and port",
    "3. Clear list of required items with quantities and specifications",
    "4. Requested delivery date and location",
    "5. Currency and payment terms (use industry standard)",
    "6. Request for delivery timeline",
    "7. Request for any relevant certifications or documentation",
    "8. Professional closing with contact information",
    "",
    ""]

  const Instructions := Join(InstructionsLines, "\n")

  const TermsHeading := "\n## ADDITIONAL TERMS\n"

  /** The closing answer-format request, line by line. */
  const ClosingLines := [
    "",
    "",
    "Return response as valid JSON with exactly these keys:",
    "{",
    "  \"subject\": \"Email subject line\",",
    "  \"body\": \"Full email body with professional formatting\"",
    "}",
    "",
    "Generate the RFQ now:"]

  const Closing := Join(ClosingLines, "\n")

  const QuantityLabel := "   Quantity: "

  const DescriptionLabel := "   Description: "

  const SpecificationsLabel := "   Specifications: "

  /** An item's first line, "n. name", after the blank line that separates items. */
  function NameLine(item: PromptItem): string {
    "\n" + NatToString(item.lineNumber) + ". " + item.itemName
  }

  /**
   * The quantity line; `showNumber` is JavaScript's number-to-string
   * conversion.
   */
  function QuantityLine(item: PromptItem, showNumber: real -> string): string {
    "\n" + QuantityLabel + showNumber(item.quantity) + " " + UnitText(item.unit) + "\n"
  }

  function ItemHeader(item: PromptItem, showNumber: real -> string): string {
    NameLine(item) + QuantityLine(item, showNumber)
  }

  /** The block one item renders to: it opens a new line and ends one. */
  function ItemBlock(item: PromptItem, showNumber: real -> string): (r: string)
    ensures |r| >= 2 && r[0] == '\n' && r[|r| - 1] == '\n'
  {
    ItemHeader(item, showNumber)
    + (Conditional(item.itemDescription, DescriptionLabel, "")
       + ("\n" + (Conditional(item.specifications, SpecificationsLabel, "") + "\n")))
  }

  /** `items.map(...)` */
  function ItemBlocks(items: seq<PromptItem>, showNumber: real -> string): (r: seq<string>)
    ensures |r| == |items|
  {
    if items == [] then [] else [ItemBlock(items[0], showNumber)] + ItemBlocks(items[1..], showNumber)
  }

  /** Block k renders item k. */
  lemma {:induction false} ItemBlocksAt(items: seq<PromptItem>, showNumber: real -> string, k: nat)
    requires k < |items|
    ensures ItemBlocks(items, showNumber)[k] == ItemBlock(items[k], showNumber)
  {
    if k > 0 {
      ItemBlocksAt(items[1..], showNumber, k - 1);
    }
  }

  /** `items.map(...).join('\n')` */
  function ItemsText(items: seq<PromptItem>, showNumber: real -> string): (r: string)
    ensures r == [] <==> items == []
  {
    Join(ItemBlocks(items, showNumber), "\n")
  }

  /**
   * The template's long fixed paragraphs. The properties below hold
   * whatever these paragraphs say; `RfqText` holds the ones
   * `createRFQPrompt` uses.
   */
  datatype FixedText = FixedText(preamble: string, instructions: string, closing: string)

  const RfqText := FixedText(Preamble, Instructions, Closing)

  /** The preamble and the vessel-name line. */
  function HeadParts(fixed: FixedText, req: RfqRequest): (r: seq<string>)
    ensures |r| == 6
  {
    [fixed.preamble, VesselHeading, "\n", VesselNameLabel, req.vesselName, "\n"]
  }

  /** `vessel_imo ? '- IMO: ' + vessel_imo : ''` */
  function ImoText(req: RfqRequest): string {
    Conditional(req.vesselImo, ImoLabel, "")
  }

  /** The port, delivery-date and currency lines, then the items heading. */
  function FieldParts(req: RfqRequest): (r: seq<string>)
    ensures |r| == 11
  {
    [ "\n", PortLabel, req.portName, "\n",
      DeliveryDateLabel, req.deliveryDate, "\n",
      CurrencyLabel, req.currency, "\n",
      ItemsHeading ]
  }

  function CompanyParts(req: RfqRequest): (r: seq<string>)
    ensures |r| == 11
  {
    [ CompanyHeading, "\n",
      CompanyLabel, req.companyName, "\n",
      EmailLabel, req.companyEmail, "\n",
      PhoneLabel, req.companyPhone, "\n" ]
  }

  /** `custom_terms ? '\n## ADDITIONAL TERMS\n' + custom_terms + '\n' : ''` */
  function TermsText(req: RfqRequest): string {
    Conditional(req.customTerms, TermsHeading, "\n")
  }

  /** The prompt's template, with the rendered items already in hand. */
  function RenderPrompt(fixed: FixedText, req: RfqRequest, items: string): string {
    Concat(HeadParts(fixed, req))
    + (ImoText(req)
       + (Concat(FieldParts(req))
          + (items
             + (Concat(CompanyParts(req))
                + (fixed.instructions
                   + (TermsText(req) + fixed.closing))))))
  }

  /** `createRFQPrompt` */
  function CreateRfqPrompt(req: RfqRequest, showNumber: real -> string): string {
    RenderPrompt(RfqText, req, ItemsText(req.items, showNumber))
  }

  // ------------------------------------------------------------- properties

  /** Pieces k..k+3 are a newline, a label, a value and a newline: that line is there. */
  lemma LineAt(parts: seq<string>, rest: string, k: nat, name: string, value: string)
    requires k + 4 <= |parts|
    requires parts[k] == "\n" && parts[k + 1] == name && parts[k + 2] == value && parts[k + 3] == "\n"
    ensures Contains(Concat(parts) + rest, "\n" + name + value + "\n")
  {
    var i := |Concat(parts[..k])|;
    LineInParts(parts, k, name, value);
    OccursBefore(Concat(parts), rest, "\n" + name + value + "\n", i);
  }

  lemma LineInParts(parts: seq<string>, k: nat, name: string, value: string)
    requires k + 4 <= |parts|
    requires parts[k] == "\n" && parts[k + 1] == name && parts[k + 2] == value && parts[k + 3] == "\n"
    ensures OccursAt(Concat(parts), "\n" + name + value + "\n", |Concat(parts[..k])|)
  {
    ConcatRun(parts, k, k + 4);
    assert parts[k..k + 4] == ["\n", name, value, "\n"];
    ConcatFour("\n", name, value, "\n");
  }

  /** Prefixing text keeps every occurrence. */
  lemma ContainsAfter(prefix: string, s: string, t: string)
    requires Contains(s, t)
    ensures Contains(prefix + s, t)
  {
    var i: nat :| i <= |s| && OccursAt(s, t, i);
    assert (prefix + s)[|prefix| + i..|prefix| + i + |t|] == s[i..i + |t|];
    assert |prefix| + i <= |prefix + s| && OccursAt(prefix + s, t, |prefix| + i);
  }

  /** Vessel name, port, delivery date and currency are always stated, each on a line of its own. */
  lemma VesselDetailsAlwaysPresent(fixed: FixedText, req: RfqRequest, items: string)
    ensures var p := RenderPrompt(fixed, req, items);
      && Contains(p, "\n" + VesselNameLabel + req.vesselName + "\n")
      && Contains(p, "\n" + PortLabel + req.portName + "\n")
      && Contains(p, "\n" + DeliveryDateLabel + req.deliveryDate + "\n")
      && Contains(p, "\n" + CurrencyLabel + req.currency + "\n")
  {
    var head, fields := HeadParts(fixed, req), FieldParts(req);
    var rest := items + (Concat(CompanyParts(req)) + (fixed.instructions + (TermsText(req) + fixed.closing)));
    LineAt(head, ImoText(req) + (Concat(fields) + rest), 2, VesselNameLabel, req.vesselName);
    var prefix := Concat(head) + ImoText(req);
    assert RenderPrompt(fixed, req, items) == prefix + (Concat(fields) + rest);
    LineAt(fields, rest, 0, PortLabel, req.portName);
    ContainsAfter(prefix, Concat(fields) + rest, "\n" + PortLabel + req.portName + "\n");
    LineAt(fields, rest, 3, DeliveryDateLabel, req.deliveryDate);
    ContainsAfter(prefix, Concat(fields) + rest, "\n" + DeliveryDateLabel + req.deliveryDate + "\n");
    LineAt(fields, rest, 6, CurrencyLabel, req.currency);
    ContainsAfter(prefix, Concat(fields) + rest, "\n" + CurrencyLabel + req.currency + "\n");
  }

  /** Company name, email and phone are always stated, each on a line of its own. */
  lemma CompanyDetailsAlwaysPresent(fixed: FixedText, req: RfqRequest, items: string)
    ensures var p := RenderPrompt(fixed, req, items);
      && Contains(p, "\n" + CompanyLabel + req.companyName + "\n")
      && Contains(p, "\n" + EmailLabel + req.companyEmail + "\n")
      && Contains(p, "\n" + PhoneLabel + req.companyPhone + "\n")
  {
    var company := CompanyParts(req);
    var rest := fixed.instructions + (TermsText(req) + fixed.closing);
    var prefix := Concat(HeadParts(fixed, req)) + ImoText(req) + Concat(FieldParts(req)) + items;
    Regroup(Concat(HeadParts(fixed, req)), ImoText(req), Concat(FieldParts(req)), items, Concat(company) + rest);
    LineAt(company, rest, 1, CompanyLabel, req.companyName);
    ContainsAfter(prefix, Concat(company) + rest, "\n" + CompanyLabel + req.companyName + "\n");
    LineAt(company, rest, 4, EmailLabel, req.companyEmail);
    ContainsAfter(prefix, Concat(company) + rest, "\n" + EmailLabel + req.companyEmail + "\n");
    LineAt(company, rest, 7, PhoneLabel, req.companyPhone);
    ContainsAfter(prefix, Concat(company) + rest, "\n" + PhoneLabel + req.companyPhone + "\n");
  }

  lemma Regroup(a: string, b: string, c: string, d: string, e: string)
    ensures a + (b + (c + (d + e))) == (a + b + c + d) + e
    ensures a + (b + (c + (d + e))) == (a + b + c) + d + e
    ensures a + (b + (c + (d + e))) == (a + b) + c + (d + e)
  {
  }

  /** Where the IMO line goes: right after the vessel-name line. */
  function ImoOffset(fixed: FixedText, req: RfqRequest): nat {
    |Concat(HeadParts(fixed, req))|
  }

  /**
   * The "- IMO:" line is there exactly when the IMO is non-empty: the prompt
   * is the IMO-less prompt with that line inserted after the vessel-name
   * line, and an empty or missing IMO gives the IMO-less prompt itself.
   */
  lemma ImoLineExactlyWhenGiven(fixed: FixedText, req: RfqRequest, items: string)
    ensures var p, q := RenderPrompt(fixed, req, items), RenderPrompt(fixed, req.(vesselImo := None), items);
      && ImoOffset(fixed, req) <= |q|
      && (Truthy(req.vesselImo) ==> p == q[..ImoOffset(fixed, req)] + ImoLabel + req.vesselImo.value + q[ImoOffset(fixed, req)..])
      && (!Truthy(req.vesselImo) ==> p == q)
  {
    var none := req.(vesselImo := None);
    var a := Concat(HeadParts(fixed, req));
    var b := Concat(FieldParts(req))
      + (items + (Concat(CompanyParts(req)) + (fixed.instructions + (TermsText(req) + fixed.closing))));
    assert HeadParts(fixed, none) == HeadParts(fixed, req);
    assert FieldParts(none) == FieldParts(req);
    assert CompanyParts(none) == CompanyParts(req);
    assert TermsText(none) == TermsText(req);
    assert RenderPrompt(fixed, none, items) == a + ("" + b);
    assert "" + b == b;
    if Truthy(req.vesselImo) {
      InsertPair(a, ImoLabel, req.vesselImo.value, b);
    }
  }

  /** Inserting `x + y` between `a` and `b`. */
  lemma InsertPair(a: string, x: string, y: string, b: string)
    ensures (a + b)[..|a|] == a && (a + b)[|a|..] == b
    ensures a + ((x + y + "") + b) == (a + b)[..|a|] + x + y + (a + b)[|a|..]
  {
  }

  /** Inserting `x` between `a` and `b`. */
  lemma Insert(a: string, x: string, b: string)
    ensures (a + b)[..|a|] == a && (a + b)[|a|..] == b
    ensures a + (x + b) == (a + b)[..|a|] + x + (a + b)[|a|..]
  {
  }

  /** Where the ADDITIONAL TERMS section goes: right before the closing text. */
  function TermsOffset(fixed: FixedText, req: RfqRequest, items: string): nat {
    |Concat(HeadParts(fixed, req))| + |ImoText(req)| + |Concat(FieldParts(req))| + |items|
    + |Concat(CompanyParts(req))| + |fixed.instructions|
  }

  /**
   * The ADDITIONAL TERMS section is there exactly when the terms are
   * non-empty: it is inserted, terms verbatim, just before the closing
   * text, and empty or missing terms give the terms-less prompt itself.
   */
  lemma TermsSectionExactlyWhenGiven(fixed: FixedText, req: RfqRequest, items: string)
    ensures var p, q, o := RenderPrompt(fixed, req, items), RenderPrompt(fixed, req.(customTerms := None), items), TermsOffset(fixed, req, items);
      && o + |fixed.closing| == |q| && q[o..] == fixed.closing
      && (Truthy(req.customTerms) ==> p == q[..o] + TermsHeading + req.customTerms.value + "\n" + q[o..])
      && (!Truthy(req.customTerms) ==> p == q)
  {
    var none := req.(customTerms := None);
    var a := Concat(HeadParts(fixed, req));
    var b := ImoText(req);
    var c := Concat(FieldParts(req));
    var e := Concat(CompanyParts(req));
    assert HeadParts(fixed, none) == HeadParts(fixed, req);
    assert ImoText(none) == ImoText(req);
    assert FieldParts(none) == FieldParts(req);
    assert CompanyParts(none) == CompanyParts(req);
    var t := TermsText(req);
    Nest(a, b, c, items, e, fixed.instructions, t, fixed.closing);
    Nest(a, b, c, items, e, fixed.instructions, "", fixed.closing);
    var pre := a + b + c + items + e + fixed.instructions;
    assert |pre| == TermsOffset(fixed, req, items);
    assert RenderPrompt(fixed, none, items) == pre + ("" + fixed.closing);
    assert "" + fixed.closing == fixed.closing;
    if Truthy(req.customTerms) {
      InsertTriple(pre, TermsHeading, req.customTerms.value, "\n", fixed.closing);
    }
    Insert(pre, t, fixed.closing);
  }

  /** Inserting `x + y + z` between `a` and `b`. */
  lemma InsertTriple(a: string, x: string, y: string, z: string, b: string)
    ensures a + ((x + y + z) + b) == (a + b)[..|a|] + x + y + z + (a + b)[|a|..]
  {
    Insert(a, x + y + z, b);
  }

  lemma Nest(a: string, b: string, c: string, d: string, e: string, f: string, g: string, h: string)
    ensures a + (b + (c + (d + (e + (f + (g + h)))))) == (a + b + c + d + e + f) + (g + h)
  {
  }

  /** Where the items go: right after the ITEMS REQUIRED heading. */
  function ItemsOffset(fixed: FixedText, req: RfqRequest): nat {
    |Concat(HeadParts(fixed, req))| + |ImoText(req)| + |Concat(FieldParts(req))|
  }

  /** The field lines end with the ITEMS REQUIRED heading. */
  lemma FieldsEndWithHeading(req: RfqRequest)
    ensures Concat(FieldParts(req)) == Concat(FieldParts(req)[..10]) + ItemsHeading
  {
    var fields := FieldParts(req);
    ConcatSplit(fields, 10);
    assert fields[10..] == [ItemsHeading];
  }

  /** In `a + (b + ((f + h) + (d + e)))`, `h` ends right where `d` starts. */
  lemma HeadingThenSlot(a: string, b: string, f: string, h: string, d: string, e: string)
    ensures var p := a + (b + ((f + h) + (d + e)));
      && |a| + |b| + |f + h| >= |h|
      && OccursAt(p, h, |a| + |b| + |f + h| - |h|)
      && OccursAt(p, d, |a| + |b| + |f + h|)
  {
    var p := a + (b + ((f + h) + (d + e)));
    assert p == (a + b + f) + h + (d + e);
    assert p == (a + b + (f + h)) + d + e;
    assert p[|a + b + f|..|a + b + f| + |h|] == h;
    assert p[|a + b + (f + h)|..|a + b + (f + h)| + |d|] == d;
  }

  /** The rendered items sit verbatim right after the ITEMS REQUIRED heading. */
  lemma ItemsAfterHeading(fixed: FixedText, req: RfqRequest, items: string)
    ensures var p := RenderPrompt(fixed, req, items);
      && ItemsOffset(fixed, req) >= |ItemsHeading|
      && OccursAt(p, ItemsHeading, ItemsOffset(fixed, req) - |ItemsHeading|)
      && OccursAt(p, items, ItemsOffset(fixed, req))
  {
    FieldsEndWithHeading(req);
    var e := Concat(CompanyParts(req)) + (fixed.instructions + (TermsText(req) + fixed.closing));
    HeadingThenSlot(Concat(HeadParts(fixed, req)), ImoText(req), Concat(FieldParts(req)[..10]), ItemsHeading, items, e);
  }

  /** Part k of the joined items sits verbatim at its join offset after the items heading. */
  lemma JoinedPartInPrompt(fixed: FixedText, req: RfqRequest, items: string, blocks: seq<string>, k: nat)
    requires k < |blocks| && items == Join(blocks, "\n")
    ensures OccursAt(RenderPrompt(fixed, req, items), blocks[k], ItemsOffset(fixed, req) + JoinOffset(blocks, "\n", k))
  {
    ItemsAfterHeading(fixed, req, items);
    JoinPartAt(blocks, "\n", k);
    OccursWithin(RenderPrompt(fixed, req, items), items, blocks[k], ItemsOffset(fixed, req), JoinOffset(blocks, "\n", k));
  }

  // The properties above, read at the prompt `createRFQPrompt` builds.

  /** Every vessel and company detail is stated in the prompt, each on a line of its own. */
  lemma CreateRfqPromptStatesDetails(req: RfqRequest, showNumber: real -> string)
    ensures var p := CreateRfqPrompt(req, showNumber);
      && Contains(p, "\n" + VesselNameLabel + req.vesselName + "\n")
      && Contains(p, "\n" + PortLabel + req.portName + "\n")
      && Contains(p, "\n" + DeliveryDateLabel + req.deliveryDate + "\n")
      && Contains(p, "\n" + CurrencyLabel + req.currency + "\n")
      && Contains(p, "\n" + CompanyLabel + req.companyName + "\n")
      && Contains(p, "\n" + EmailLabel + req.companyEmail + "\n")
      && Contains(p, "\n" + PhoneLabel + req.companyPhone + "\n")
  {
    VesselDetailsAlwaysPresent(RfqText, req, ItemsText(req.items, showNumber));
    CompanyDetailsAlwaysPresent(RfqText, req, ItemsText(req.items, showNumber));
  }

  /** The prompt has the IMO line exactly when the IMO is non-empty. */
  lemma CreateRfqPromptImoLine(req: RfqRequest, showNumber: real -> string)
    ensures var p, q := CreateRfqPrompt(req, showNumber), CreateRfqPrompt(req.(vesselImo := None), showNumber);
      && ImoOffset(RfqText, req) <= |q|
      && (Truthy(req.vesselImo) ==> p == q[..ImoOffset(RfqText, req)] + ImoLabel + req.vesselImo.value + q[ImoOffset(RfqText, req)..])
      && (!Truthy(req.vesselImo) ==> p == q)
  {
    ImoLineExactlyWhenGiven(RfqText, req, ItemsText(req.items, showNumber));
  }

  /** The prompt has the ADDITIONAL TERMS section exactly when the terms are non-empty. */
  lemma CreateRfqPromptTermsSection(req: RfqRequest, showNumber: real -> string)
    ensures var p, q := CreateRfqPrompt(req, showNumber), CreateRfqPrompt(req.(customTerms := None), showNumber);
      var o := TermsOffset(RfqText, req, ItemsText(req.items, showNumber));
      && o + |Closing| == |q|
      && (Truthy(req.customTerms) ==> p == q[..o] + TermsHeading + req.customTerms.value + "\n" + q[o..])
      && (!Truthy(req.customTerms) ==> p == q)
  {
    TermsSectionExactlyWhenGiven(RfqText, req, ItemsText(req.items, showNumber));
  }

  /** Block k of the rendered items sits verbatim at its join offset after the items heading. */
  lemma ItemBlockInPrompt(fixed: FixedText, req: RfqRequest, items: seq<PromptItem>, showNumber: real -> string, k: nat)
    requires k < |items|
    ensures var blocks := ItemBlocks(items, showNumber);
      OccursAt(RenderPrompt(fixed, req, ItemsText(items, showNumber)), blocks[k],
               ItemsOffset(fixed, req) + JoinOffset(blocks, "\n", k))
  {
    JoinedPartInPrompt(fixed, req, ItemsText(items, showNumber), ItemBlocks(items, showNumber), k);
  }

  /**
   * Items appear in input order: the block of item k sits verbatim in the
   * prompt at its own offset after the items heading, and the next block
   * starts after it ends.
   */
  lemma ItemsInInputOrder(req: RfqRequest, showNumber: real -> string, k: nat)
    requires k < |req.items|
    ensures var blocks := ItemBlocks(req.items, showNumber);
      && OccursAt(CreateRfqPrompt(req, showNumber), ItemBlock(req.items[k], showNumber),
                  ItemsOffset(RfqText, req) + JoinOffset(blocks, "\n", k))
      && (k + 1 < |blocks| ==> JoinOffset(blocks, "\n", k + 1) >= JoinOffset(blocks, "\n", k) + |blocks[k]|)
  {
    ItemBlockInPrompt(RfqText, req, req.items, showNumber, k);
    ItemBlocksAt(req.items, showNumber, k);
    JoinPartAt(ItemBlocks(req.items, showNumber), "\n", k);
  }

  /**
   * An item's block opens with the line "line_number. item_name" and then
   * the line "   Quantity: <quantity> <unit>"; a missing or empty unit
   * leaves the unit text empty.
   */
  lemma ItemBlockOpening(item: PromptItem, showNumber: real -> string)
    ensures var block := ItemBlock(item, showNumber);
      var first := "\n" + NatToString(item.lineNumber) + ". " + item.itemName + "\n";
      && OccursAt(block, first, 0)
      && OccursAt(block, "\n" + QuantityLabel + showNumber(item.quantity) + " " + UnitText(item.unit) + "\n", |first| - 1)
  {
    var rest := Conditional(item.itemDescription, DescriptionLabel, "")
      + ("\n" + (Conditional(item.specifications, SpecificationsLabel, "") + "\n"));
    TwoLines(NatToString(item.lineNumber), item.itemName, showNumber(item.quantity), UnitText(item.unit), rest);
  }

  /** The two opening lines of a block, for any line number, name, quantity, unit and rest. */
  lemma TwoLines(n: string, name: string, q: string, u: string, rest: string)
    ensures var block := ("\n" + n + ". " + name) + (("\n" + QuantityLabel + q + " " + u + "\n") + rest);
      var first := "\n" + n + ". " + name + "\n";
      && OccursAt(block, first, 0)
      && OccursAt(block, "\n" + QuantityLabel + q + " " + u + "\n", |first| - 1)
  {
    var a, b := "\n" + n + ". " + name, "\n" + QuantityLabel + q + " " + u + "\n";
    var block := a + (b + rest);
    assert block[..|a| + 1] == a + "\n";
    assert block[|a|..|a| + |b|] == b;
  }

  /**
   * The Description line is there exactly when the description is
   * non-empty: the block is the description-less block with the line
   * inserted after the quantity line.
   */
  lemma DescriptionLineExactlyWhenGiven(item: PromptItem, showNumber: real -> string)
    ensures var b, c := ItemBlock(item, showNumber), ItemBlock(item.(itemDescription := None), showNumber);
      var at := |ItemHeader(item, showNumber)|;
      && at <= |c|
      && (Truthy(item.itemDescription) ==> b == c[..at] + DescriptionLabel + item.itemDescription.value + c[at..])
      && (!Truthy(item.itemDescription) ==> b == c)
  {
    var none := item.(itemDescription := None);
    assert ItemHeader(none, showNumber) == ItemHeader(item, showNumber);
    var h := ItemHeader(item, showNumber);
    var rest := "\n" + (Conditional(item.specifications, SpecificationsLabel, "") + "\n");
    assert ItemBlock(none, showNumber) == h + ("" + rest);
    assert "" + rest == rest;
    Insert(h, Conditional(item.itemDescription, DescriptionLabel, ""), rest);
  }

  /**
   * The Specifications line is there exactly when the specifications are
   * non-empty: the block is the specification-less block with the line
   * inserted before its final newline.
   */
  lemma SpecificationsLineExactlyWhenGiven(item: PromptItem, showNumber: real -> string)
    ensures var b, c := ItemBlock(item, showNumber), ItemBlock(item.(specifications := None), showNumber);
      && 1 <= |c| && c[|c| - 1..] == "\n"
      && (Truthy(item.specifications) ==>
            b == c[..|c| - 1] + SpecificationsLabel + item.specifications.value + c[|c| - 1..])
      && (!Truthy(item.specifications) ==> b == c)
  {
    var none := item.(specifications := None);
    assert ItemHeader(none, showNumber) == ItemHeader(item, showNumber);
    var h := ItemHeader(item, showNumber);
    var d := Conditional(item.itemDescription, DescriptionLabel, "");
    var s := Conditional(item.specifications, SpecificationsLabel, "");
    var pre := h + d + "\n";
    assert ItemBlock(item, showNumber) == pre + (s + "\n");
    assert ItemBlock(none, showNumber) == pre + ("" + "\n");
    assert "" + "\n" == "\n";
    Insert(pre, s, "\n");
  }
}
