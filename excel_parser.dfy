/**
 * The requisition spreadsheet parser. The spreadsheet reader hands it the rows
 * of the first sheet, each a map from column header to cell; the first row
 * carries the requisition header, every later row may carry a line item.
 * Every failure aborts the whole parse with one of the errors below.
 */
module ExcelParser {
  import opened Wrappers
  import opened JsText
  import opened JsDate
  import opened RequisitionTypes

  /** A cell as the reader gives it: null, or the text that String(value) makes of it. */
  datatype Cell = Null | Text(text: string)

  /** A row: column header to cell. A cell the reader left out has no key. */
  type Row = map<string, Cell>

  /**
   * The host's number and date parsing, which the model does not define:
   * parseFloat (None for NaN) and new Date (None for an invalid date).
   */
  datatype Host = Host(parseFloat: string -> Option<real>, newDate: string -> Option<Instant>)

  datatype ParsedRequisition = ParsedRequisition(requisition: Requisition, items: seq<RequisitionItem>)

  /** The errors the parser throws; `row` is the zero-based data index plus one. */
  datatype ParseError =
    | EmptyFile
    | RequiredColumnNotFound(columns: seq<string>)
    | InvalidNumber(text: string)
    | InvalidDate(text: string)
    | VesselNameRequired
    | PortNameRequired
    | DeliveryDateRequired
    | QuantityNotPositive(row: nat)
    | NoItems

  /** The message each error carries. */
  function Message(e: ParseError): string {
    match e
    case EmptyFile => "Excel file is empty"
    case RequiredColumnNotFound(columns) => "Required column not found: " + Join(columns, " or ")
    case InvalidNumber(text) => "Invalid number: " + text
    case InvalidDate(text) => "Invalid date: " + text
    case VesselNameRequired => "Vessel name is required"
    case PortNameRequired => "Port name is required"
    case DeliveryDateRequired => "Delivery date is required"
    case QuantityNotPositive(row) => "Row " + NatToString(row) + ": Quantity must be greater than 0"
    case NoItems => "No items found in Excel file"
  }

  // The column names tried for each field, in the order they are tried.
  const VesselColumns: seq<string> := ["Vessel", "Vessel Name", "vessel_name"]
  const ImoColumns: seq<string> := ["IMO", "vessel_imo"]
  const PortColumns: seq<string> := ["Port", "Port Name", "port_name"]
  const DeliveryDateColumns: seq<string> := ["Delivery Date", "delivery_date"]
  const CurrencyColumns: seq<string> := ["Currency", "currency"]
  const NotesColumns: seq<string> := ["Notes", "notes"]
  const ItemNameColumns: seq<string> := ["Item Name", "Item", "item_name"]
  const QuantityColumns: seq<string> := ["Qty", "Quantity", "quantity"]
  const DescriptionColumns: seq<string> := ["Description", "Desc", "description"]
  const UnitColumns: seq<string> := ["Unit", "UoM", "unit"]
  const SpecificationsColumns: seq<string> := ["Specifications", "Specs", "specifications"]

  /** A column is usable when its cell is neither undefined, null nor ''. */
  predicate Usable(row: Row, name: string) {
    name in row && row[name] != Null && row[name] != Text("")
  }

  /** The position of the first usable column among names[from..], if there is one. */
  function FirstUsable(row: Row, names: seq<string>, from: nat): (r: Option<nat>)
    requires from <= |names|
    ensures r.Some? ==> from <= r.value < |names| && Usable(row, names[r.value])
    decreases |names| - from
  {
    if from == |names| then None
    else if Usable(row, names[from]) then Some(from)
    else FirstUsable(row, names, from + 1)
  }

  /**
   * getString: the trimmed text of the first column of `names`, in list order,
   * whose cell is usable. With no usable column it fails when `required` and
   * gives '' otherwise.
   */
  function GetString(row: Row, names: seq<string>, required: bool): (r: Result<string, ParseError>)
    ensures r.Err? <==> required && FirstUsable(row, names, 0).None?
    ensures r.Err? ==> r.error == RequiredColumnNotFound(names)
    ensures r.Ok? ==> Trimmed(r.value) && (r.value != [] ==> FirstUsable(row, names, 0).Some?)
  {
    match FirstUsable(row, names, 0)
    case Some(k) => TrimSpec(row[names[k]].text); Ok(Trim(row[names[k]].text))
    case None => if required then Err(RequiredColumnNotFound(names)) else Ok("")
  }

  /**
   * getNumber: the required text of the column, read by parseFloat. A missing
   * column fails as in GetString; text parseFloat rejects fails InvalidNumber.
   */
  function GetNumber(row: Row, names: seq<string>, host: Host): (r: Result<real, ParseError>)
    ensures r.Err? ==> r.error == RequiredColumnNotFound(names) || r.error.InvalidNumber?
    ensures r.Ok? ==>
      && GetString(row, names, true).Ok?
      && host.parseFloat(GetString(row, names, true).value) == Some(r.value)
  {
    var text :- GetString(row, names, true);
    match host.parseFloat(text)
    case None => Err(InvalidNumber(text))
    case Some(n) => Ok(n)
  }

  /**
   * getDate: the required text of the column, read by new Date and reduced to
   * the date part of its ISO form. A missing column fails as in GetString, an
   * invalid date fails InvalidDate; a valid one never gives ''.
   */
  function GetDate(row: Row, names: seq<string>, host: Host): (r: Result<string, ParseError>)
    ensures r.Err? ==> r.error == RequiredColumnNotFound(names) || r.error.InvalidDate?
    ensures r.Ok? ==>
      && GetString(row, names, true).Ok?
      && host.newDate(GetString(row, names, true).value).Some?
      && r.value == DateText(host.newDate(GetString(row, names, true).value).value)
    ensures r.Ok? ==> r.value != ""
  {
    var text :- GetString(row, names, true);
    match host.newDate(text)
    case None => Err(InvalidDate(text))
    case Some(date) => Ok(IsoDatePart(date))
  }

  /**
   * The requisition header, taken from one row. The fields are read in the
   * order the source's object literal lists them, so a missing vessel column
   * is reported before a missing port column, and that before a missing or
   * invalid delivery date; only then are blank vessel and port names
   * rejected. The currency defaults to USD and the status is always Draft.
   */
  function ParseHeader(row: Row, host: Host): (r: Result<Requisition, ParseError>)
    ensures r.Ok? ==> r.value.status == Draft
    ensures r.Ok? ==> r.value.vesselName != "" && r.value.portName != "" && r.value.deliveryDate != ""
    ensures r.Ok? ==> r.value.currency != ""
  {
    var vesselName :- GetString(row, VesselColumns, true);
    var vesselImo := GetString(row, ImoColumns, false).value;
    var portName :- GetString(row, PortColumns, true);
    var deliveryDate :- GetDate(row, DeliveryDateColumns, host);
    var currency := GetString(row, CurrencyColumns, false).value;
    var notes := GetString(row, NotesColumns, false).value;
    var requisition := Requisition(
      vesselName, vesselImo, portName, deliveryDate,
      if currency == "" then "USD" else currency, Draft, notes);
    if requisition.vesselName == "" then Err(VesselNameRequired)
    else if requisition.portName == "" then Err(PortNameRequired)
    else if requisition.deliveryDate == "" then Err(DeliveryDateRequired)
    else Ok(requisition)
  }

  /**
   * The item-name text of a row ('' skips the row): trimmed, and non-empty
   * only when the row has a usable item-name column.
   */
  function ItemName(row: Row): (r: string)
    ensures Trimmed(r)
    ensures r != [] ==> FirstUsable(row, ItemNameColumns, 0).Some?
  {
    GetString(row, ItemNameColumns, false).value
  }

  /**
   * The item a row yields. Its description, unit and specifications are
   * trimmed, and non-empty only when the row has a usable column for them.
   */
  function LineItem(row: Row, lineNumber: nat, itemName: string, quantity: real): (r: RequisitionItem)
    ensures Trimmed(r.itemDescription) && Trimmed(r.unit) && Trimmed(r.specifications)
    ensures r.itemDescription != [] ==> FirstUsable(row, DescriptionColumns, 0).Some?
    ensures r.unit != [] ==> FirstUsable(row, UnitColumns, 0).Some?
    ensures r.specifications != [] ==> FirstUsable(row, SpecificationsColumns, 0).Some?
  {
    RequisitionItem(
      lineNumber, itemName,
      GetString(row, DescriptionColumns, false).value,
      quantity,
      GetString(row, UnitColumns, false).value,
      GetString(row, SpecificationsColumns, false).value)
  }

  /**
   * The item loop from data index `i` on, with `items` collected so far.
   * Rows without an item name are skipped; a named row whose quantity is
   * missing, not a number, zero or negative ends the parse with an error.
   * What it returns extends `items` with items numbered on from |items| + 1,
   * each named and with a positive quantity.
   */
  function CollectItems(rows: seq<Row>, i: nat, host: Host, items: seq<RequisitionItem>)
    : (r: Result<seq<RequisitionItem>, ParseError>)
    requires i <= |rows|
    ensures r.Ok? ==> |items| <= |r.value| && r.value[..|items|] == items
    ensures r.Ok? ==> forall k :: |items| <= k < |r.value| ==>
      r.value[k].lineNumber == k + 1 && r.value[k].itemName != "" && r.value[k].quantity > 0.0
    decreases |rows| - i
  {
    if i == |rows| then Ok(items)
    else
      var row := rows[i];
      var itemName := ItemName(row);
      if itemName == "" then CollectItems(rows, i + 1, host, items)
      else
        match GetNumber(row, QuantityColumns, host)
        case Err(e) => Err(e)
        case Ok(quantity) =>
          // `!quantity || quantity <= 0`: NaN is already an error, so this is quantity <= 0
          if quantity <= 0.0 then Err(QuantityNotPositive(i + 1))
          else
            var item := LineItem(row, |items| + 1, itemName, quantity);
            var r := CollectItems(rows, i + 1, host, items + [item]);
            if r.Ok? then PrefixThenLast(r.value, items, item); r else r
  }

  /** A sequence that starts with items + [item] starts with items, and item follows them. */
  lemma PrefixThenLast<T>(v: seq<T>, items: seq<T>, item: T)
    requires |items| + 1 <= |v| && v[..|items| + 1] == items + [item]
    ensures v[|items|] == item && v[..|items|] == items
  {
    assert v[..|items|] == v[..|items| + 1][..|items|];
  }

  /**
   * The whole parse. An empty sheet fails EmptyFile before anything else; the
   * header comes from the first row only and its failures come first; a
   * successful parse has at least one item, numbered 1..N, each named and with
   * a positive quantity.
   */
  function Parse(rows: seq<Row>, host: Host): (r: Result<ParsedRequisition, ParseError>)
    ensures |rows| == 0 ==> r == Err(EmptyFile)
    ensures |rows| > 0 && ParseHeader(rows[0], host).Err? ==> r == Err(ParseHeader(rows[0], host).error)
    ensures r.Ok? ==> Ok(r.value.requisition) == ParseHeader(rows[0], host)
    ensures r.Ok? ==> |r.value.items| > 0
    ensures r.Ok? ==> forall k :: 0 <= k < |r.value.items| ==>
      r.value.items[k].lineNumber == k + 1 && r.value.items[k].itemName != "" && r.value.items[k].quantity > 0.0
  {
    if |rows| == 0 then Err(EmptyFile)
    else
      var requisition :- ParseHeader(rows[0], host);
      var items :- CollectItems(rows, 1, host, []);
      if |items| == 0 then Err(NoItems) else Ok(ParsedRequisition(requisition, items))
  }

  /** ExcelParser.parseRequisitionFile, after the sheet has been read into rows. */
  method ParseRequisitionFile(rows: seq<Row>, host: Host) returns (r: Result<ParsedRequisition, ParseError>)
    ensures r == Parse(rows, host)
  {
    if |rows| == 0 {
      return Err(EmptyFile);
    }
    var requisition :- ParseHeader(rows[0], host);
    var items: seq<RequisitionItem> := [];
    for i := 1 to |rows|
      invariant CollectItems(rows, i, host, items) == CollectItems(rows, 1, host, [])
    {
      var row := rows[i];
      var itemName := GetString(row, ItemNameColumns, false).value;
      if itemName == "" {
        continue;
      }
      var quantity :- GetNumber(row, QuantityColumns, host);
      if quantity <= 0.0 {
        return Err(QuantityNotPositive(i + 1));
      }
      items := items + [LineItem(row, |items| + 1, itemName, quantity)];
    }
    if |items| == 0 {
      return Err(NoItems);
    }
    return Ok(ParsedRequisition(requisition, items));
  }
}
