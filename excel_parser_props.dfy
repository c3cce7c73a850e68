/**
 * What the requisition parser guarantees, stated column by column and row by
 * row rather than through the parser's own definitions.
 */
module ExcelParserProps {
  import opened Wrappers
  import opened JsText
  import opened JsDate
  import opened RequisitionTypes
  import opened ExcelParser

  /** Does any of `names` give a usable cell in `row`? */
  predicate HasColumn(row: Row, names: seq<string>) {
    exists j :: 0 <= j < |names| && Usable(row, names[j])
  }

  // ---------------------------------------------------------------- columns

  /** FirstUsable finds the first usable column, and finds none exactly when there is none. */
  lemma {:induction false} FirstUsableSpec(row: Row, names: seq<string>, from: nat)
    requires from <= |names|
    ensures var r := FirstUsable(row, names, from);
      && (r.Some? ==> forall j :: from <= j < r.value ==> !Usable(row, names[j]))
      && (r.None? <==> forall j :: from <= j < |names| ==> !Usable(row, names[j]))
    decreases |names| - from
  {
    if from < |names| {
      FirstUsableSpec(row, names, from + 1);
    }
  }

  /**
   * GetString returns the trimmed text of the first usable column in list
   * order, whatever that text trims to.
   */
  lemma GetStringFirstUsable(row: Row, names: seq<string>, required: bool, k: nat)
    requires k < |names| && Usable(row, names[k])
    requires forall j :: 0 <= j < k ==> !Usable(row, names[j])
    ensures GetString(row, names, required) == Ok(Trim(row[names[k]].text))
  {
    FirstUsableSpec(row, names, 0);
  }

  /** With no usable column, GetString fails when the column is required and gives '' otherwise. */
  lemma GetStringNoColumn(row: Row, names: seq<string>, required: bool)
    requires !HasColumn(row, names)
    ensures GetString(row, names, required) == if required then Err(RequiredColumnNotFound(names)) else Ok("")
  {
    FirstUsableSpec(row, names, 0);
  }

  /** With a usable column, GetString succeeds. */
  lemma GetStringHasColumn(row: Row, names: seq<string>, required: bool)
    requires HasColumn(row, names)
    ensures GetString(row, names, required).Ok?
  {
    FirstUsableSpec(row, names, 0);
  }

  /**
   * A first usable column whose text is all white space gives '', and the
   * columns after it are not tried instead.
   */
  lemma GetStringBlankFirstUsable(row: Row, names: seq<string>, required: bool, k: nat)
    requires k < |names| && Usable(row, names[k])
    requires forall j :: 0 <= j < k ==> !Usable(row, names[j])
    requires forall i :: 0 <= i < |row[names[k]].text| ==> IsWhiteSpace(row[names[k]].text[i])
    ensures GetString(row, names, required) == Ok("")
  {
    GetStringFirstUsable(row, names, required, k);
    TrimSpec(row[names[k]].text);
  }

  /**
   * Columns after the first usable one are never consulted: two rows that
   * agree on the columns up to and including it give the same result.
   */
  lemma GetStringIgnoresLaterColumns(row: Row, other: Row, names: seq<string>, required: bool, k: nat)
    requires k < |names| && Usable(row, names[k])
    requires forall j :: 0 <= j < k ==> !Usable(row, names[j])
    requires forall j :: 0 <= j <= k ==> (names[j] in row <==> names[j] in other)
    requires forall j :: 0 <= j <= k && names[j] in row ==> row[names[j]] == other[names[j]]
    ensures GetString(row, names, required) == GetString(other, names, required)
  {
    GetStringFirstUsable(row, names, required, k);
    assert Usable(other, names[k]);
    forall j | 0 <= j < k
      ensures !Usable(other, names[j])
    {
      assert !Usable(row, names[j]);
    }
    GetStringFirstUsable(other, names, required, k);
  }

  /** GetNumber: a missing column, then text parseFloat rejects, are its two failures. */
  lemma GetNumberSpec(row: Row, names: seq<string>, host: Host)
    ensures !HasColumn(row, names) ==> GetNumber(row, names, host) == Err(RequiredColumnNotFound(names))
    ensures HasColumn(row, names) ==>
      && GetString(row, names, true).Ok?
      && var text := GetString(row, names, true).value;
         GetNumber(row, names, host)
           == if host.parseFloat(text).None? then Err(InvalidNumber(text)) else Ok(host.parseFloat(text).value)
  {
    FirstUsableSpec(row, names, 0);
  }

  /** GetDate: a missing column, then an invalid date, are its two failures; otherwise the ISO date part. */
  lemma GetDateSpec(row: Row, names: seq<string>, host: Host)
    ensures !HasColumn(row, names) ==> GetDate(row, names, host) == Err(RequiredColumnNotFound(names))
    ensures HasColumn(row, names) ==>
      && GetString(row, names, true).Ok?
      && var text := GetString(row, names, true).value;
         GetDate(row, names, host)
           == if host.newDate(text).None? then Err(InvalidDate(text)) else Ok(DateText(host.newDate(text).value))
  {
    FirstUsableSpec(row, names, 0);
  }

  // ----------------------------------------------------------------- header

  /**
   * A parsed header: vessel, port, delivery date, IMO and notes are what
   * their columns give, the IMO and the notes '' without a column; the currency is the
   * column's text, or USD when that is absent or blank.
   */
  lemma HeaderFields(row: Row, host: Host)
    requires ParseHeader(row, host).Ok?
    ensures var h := ParseHeader(row, host).value;
      && Ok(h.vesselName) == GetString(row, VesselColumns, true)
      && Ok(h.portName) == GetString(row, PortColumns, true)
      && Ok(h.deliveryDate) == GetDate(row, DeliveryDateColumns, host)
      && Ok(h.vesselImo) == GetString(row, ImoColumns, false)
      && Ok(h.notes) == GetString(row, NotesColumns, false)
      && (!HasColumn(row, ImoColumns) ==> h.vesselImo == "")
      && (!HasColumn(row, NotesColumns) ==> h.notes == "")
      && (GetString(row, CurrencyColumns, false) == Ok("") ==> h.currency == "USD")
      && (!HasColumn(row, CurrencyColumns) ==> h.currency == "USD")
      && (GetString(row, CurrencyColumns, false) != Ok("") ==> Ok(h.currency) == GetString(row, CurrencyColumns, false))
  {
    var vesselName := GetString(row, VesselColumns, true);
    var vesselImo := GetString(row, ImoColumns, false);
    var portName := GetString(row, PortColumns, true);
    var deliveryDate := GetDate(row, DeliveryDateColumns, host);
    var currency := GetString(row, CurrencyColumns, false);
    var notes := GetString(row, NotesColumns, false);
    assert vesselName.Ok? && portName.Ok? && deliveryDate.Ok?;
    assert ParseHeader(row, host).value == Requisition(vesselName.value, vesselImo.value, portName.value,
      deliveryDate.value, if currency.value == "" then "USD" else currency.value, Draft, notes.value);
    FirstUsableSpec(row, ImoColumns, 0);
    FirstUsableSpec(row, NotesColumns, 0);
    FirstUsableSpec(row, CurrencyColumns, 0);
  }

  /**
   * Header failures, in the order they fire: a missing vessel column, a
   * missing port column, a missing or invalid delivery date, then a vessel
   * name and a port name that are blank after trimming.
   */
  lemma HeaderErrorOrder(row: Row, host: Host)
    ensures !HasColumn(row, VesselColumns) ==>
      ParseHeader(row, host) == Err(RequiredColumnNotFound(VesselColumns))
    ensures HasColumn(row, VesselColumns) && !HasColumn(row, PortColumns) ==>
      ParseHeader(row, host) == Err(RequiredColumnNotFound(PortColumns))
    ensures
      (HasColumn(row, VesselColumns) && HasColumn(row, PortColumns)
       && GetDate(row, DeliveryDateColumns, host).Err?) ==>
      ParseHeader(row, host) == Err(GetDate(row, DeliveryDateColumns, host).error)
    ensures
      (HasColumn(row, VesselColumns) && HasColumn(row, PortColumns)
       && GetDate(row, DeliveryDateColumns, host).Ok? && GetString(row, VesselColumns, true) == Ok("")) ==>
      ParseHeader(row, host) == Err(VesselNameRequired)
    ensures
      (HasColumn(row, VesselColumns) && HasColumn(row, PortColumns)
       && GetDate(row, DeliveryDateColumns, host).Ok? && GetString(row, VesselColumns, true) != Ok("")
       && GetString(row, PortColumns, true) == Ok("")) ==>
      ParseHeader(row, host) == Err(PortNameRequired)
  {
    FirstUsableSpec(row, VesselColumns, 0);
    FirstUsableSpec(row, PortColumns, 0);
  }

  /** Those are the only header failures: when none of them holds, the header parses. */
  lemma HeaderParsesOtherwise(row: Row, host: Host)
    requires HasColumn(row, VesselColumns) && HasColumn(row, PortColumns)
    requires GetDate(row, DeliveryDateColumns, host).Ok?
    requires GetString(row, VesselColumns, true) != Ok("") && GetString(row, PortColumns, true) != Ok("")
    ensures ParseHeader(row, host).Ok?
  {
    assert GetString(row, VesselColumns, true).Ok? by {
      GetStringHasColumn(row, VesselColumns, true);
    }
    assert GetString(row, PortColumns, true).Ok? by {
      GetStringHasColumn(row, PortColumns, true);
    }
  }

  /** A valid delivery date never reduces to '', so the delivery-date check can never fail. */
  lemma DeliveryDateCheckNeverFires(row: Row, host: Host)
    ensures ParseHeader(row, host) != Err(DeliveryDateRequired)
  {
    var vesselName := GetString(row, VesselColumns, true);
    var portName := GetString(row, PortColumns, true);
    var date := GetDate(row, DeliveryDateColumns, host);
    if vesselName.Ok? && portName.Ok? && date.Ok? {
      assert date.value != "";
    }
  }

  // ------------------------------------------------------------------ items

  /** The data indices from `i` on whose rows carry an item name, in row order. */
  function NamedRows(rows: seq<Row>, i: nat): (r: seq<nat>)
    requires i <= |rows|
    ensures forall k :: 0 <= k < |r| ==> i <= r[k] < |rows| && ItemName(rows[r[k]]) != ""
    ensures forall k, m :: 0 <= k < m < |r| ==> r[k] < r[m]
    decreases |rows| - i
  {
    if i == |rows| then []
    else if ItemName(rows[i]) != "" then [i] + NamedRows(rows, i + 1)
    else NamedRows(rows, i + 1)
  }

  /** Every named row from `i` on is listed. */
  lemma {:induction false} NamedRowsComplete(rows: seq<Row>, i: nat, j: nat)
    requires i <= j < |rows| && ItemName(rows[j]) != ""
    ensures j in NamedRows(rows, i)
    decreases j - i
  {
    if i < j {
      NamedRowsComplete(rows, i + 1, j);
    }
  }

  /** With no named row from `i` on, none is listed. */
  lemma {:induction false} NamedRowsNone(rows: seq<Row>, i: nat)
    requires i <= |rows|
    requires forall j :: i <= j < |rows| ==> ItemName(rows[j]) == ""
    ensures NamedRows(rows, i) == []
    decreases |rows| - i
  {
    if i < |rows| {
      NamedRowsNone(rows, i + 1);
    }
  }

  /** A row's quantity is accepted when it is present, a number and positive. */
  predicate QuantityAccepted(row: Row, host: Host) {
    GetNumber(row, QuantityColumns, host).Ok? && GetNumber(row, QuantityColumns, host).value > 0.0
  }

  /** The error a named row at data index `j` with an unaccepted quantity aborts the parse with. */
  function RowError(rows: seq<Row>, j: nat, host: Host): ParseError
    requires j < |rows| && !QuantityAccepted(rows[j], host)
  {
    var quantity := GetNumber(rows[j], QuantityColumns, host);
    if quantity.Err? then quantity.error else QuantityNotPositive(j + 1)
  }

  /** The item the named row at data index `j` yields as item number `n`. */
  function ExpectedItem(rows: seq<Row>, j: nat, n: nat, host: Host): RequisitionItem
    requires j < |rows| && QuantityAccepted(rows[j], host)
  {
    LineItem(rows[j], n, ItemName(rows[j]), GetNumber(rows[j], QuantityColumns, host).value)
  }

  /**
   * A row is skipped exactly when it has no usable item-name column or the
   * first one holds only white space.
   */
  lemma ItemNameBlankExactly(row: Row)
    ensures var f := FirstUsable(row, ItemNameColumns, 0);
      ItemName(row) == "" <==> f.None? || AllWhiteSpace(row[ItemNameColumns[f.value]].text)
  {
    match FirstUsable(row, ItemNameColumns, 0)
    case Some(k) => TrimSpec(row[ItemNameColumns[k]].text);
    case None =>
  }

  /** An item takes the name and quantity it is given; description, unit and specifications are '' without a column. */
  lemma LineItemFields(row: Row, n: nat, name: string, quantity: real)
    ensures var item := LineItem(row, n, name, quantity);
      && item.lineNumber == n && item.itemName == name && item.quantity == quantity
      && Ok(item.itemDescription) == GetString(row, DescriptionColumns, false)
      && Ok(item.unit) == GetString(row, UnitColumns, false)
      && Ok(item.specifications) == GetString(row, SpecificationsColumns, false)
      && (!HasColumn(row, DescriptionColumns) ==> item.itemDescription == "")
      && (!HasColumn(row, UnitColumns) ==> item.unit == "")
      && (!HasColumn(row, SpecificationsColumns) ==> item.specifications == "")
  {
    FirstUsableSpec(row, DescriptionColumns, 0);
    FirstUsableSpec(row, UnitColumns, 0);
    FirstUsableSpec(row, SpecificationsColumns, 0);
  }

  /**
   * When the item loop succeeds from index `i`, every named row from `i` on
   * has an accepted quantity and yields, in row order, the next item.
   */
  lemma {:induction false} CollectItemsOk(rows: seq<Row>, i: nat, host: Host, items: seq<RequisitionItem>)
    requires i <= |rows|
    requires CollectItems(rows, i, host, items).Ok?
    ensures var res, named := CollectItems(rows, i, host, items).value, NamedRows(rows, i);
      && |res| == |items| + |named|
      && forall k :: 0 <= k < |named| ==>
           QuantityAccepted(rows[named[k]], host)
           && res[|items| + k] == ExpectedItem(rows, named[k], |items| + k + 1, host)
    decreases |rows| - i
  {
    if i < |rows| {
      var row := rows[i];
      if ItemName(row) == "" {
        CollectItemsOk(rows, i + 1, host, items);
      } else {
        var quantity := GetNumber(row, QuantityColumns, host).value;
        var item := LineItem(row, |items| + 1, ItemName(row), quantity);
        var next := items + [item];
        CollectItemsOk(rows, i + 1, host, next);
        var res := CollectItems(rows, i, host, items).value;
        assert res == CollectItems(rows, i + 1, host, next).value;
        assert res[|items|] == item by {
          assert res[..|next|] == next;
          assert res[..|next|][|items|] == res[|items|];
        }
        var named := NamedRows(rows, i);
        assert named == [i] + NamedRows(rows, i + 1);
        forall k | 0 <= k < |named|
          ensures QuantityAccepted(rows[named[k]], host)
          ensures res[|items| + k] == ExpectedItem(rows, named[k], |items| + k + 1, host)
        {
          if k > 0 {
            assert named[k] == NamedRows(rows, i + 1)[k - 1];
            assert |items| + k == |next| + (k - 1);
          }
        }
      }
    }
  }

  /** When every named row from `i` on has an accepted quantity, the item loop succeeds. */
  lemma {:induction false} CollectItemsAccepted(rows: seq<Row>, i: nat, host: Host, items: seq<RequisitionItem>)
    requires i <= |rows|
    requires forall j :: i <= j < |rows| && ItemName(rows[j]) != "" ==> QuantityAccepted(rows[j], host)
    ensures CollectItems(rows, i, host, items).Ok?
    decreases |rows| - i
  {
    if i < |rows| {
      if ItemName(rows[i]) == "" {
        SkipUnnamedRow(rows, i, host, items);
        CollectItemsAccepted(rows, i + 1, host, items);
      } else {
        TakeGoodRow(rows, i, host, items);
        CollectItemsAccepted(rows, i + 1, host, items + [ExpectedItem(rows, i, |items| + 1, host)]);
      }
    }
  }

  /** A row without an item name is skipped by the item loop. */
  lemma SkipUnnamedRow(rows: seq<Row>, i: nat, host: Host, items: seq<RequisitionItem>)
    requires i < |rows| && ItemName(rows[i]) == ""
    ensures CollectItems(rows, i, host, items) == CollectItems(rows, i + 1, host, items)
  {
  }

  /** A named row whose quantity is not accepted ends the item loop with its error. */
  lemma StopAtBadRow(rows: seq<Row>, i: nat, host: Host, items: seq<RequisitionItem>)
    requires i < |rows| && ItemName(rows[i]) != "" && !QuantityAccepted(rows[i], host)
    ensures CollectItems(rows, i, host, items) == Err(RowError(rows, i, host))
  {
  }

  /** A named row whose quantity is accepted adds its item and the loop goes on. */
  lemma TakeGoodRow(rows: seq<Row>, i: nat, host: Host, items: seq<RequisitionItem>)
    requires i < |rows| && ItemName(rows[i]) != "" && QuantityAccepted(rows[i], host)
    ensures CollectItems(rows, i, host, items)
      == CollectItems(rows, i + 1, host, items + [ExpectedItem(rows, i, |items| + 1, host)])
  {
  }

  /**
   * The first named row (in row order) whose quantity is not accepted decides
   * the error, and nothing is returned but that error.
   */
  lemma {:induction false} CollectItemsFirstError(rows: seq<Row>, i: nat, host: Host, items: seq<RequisitionItem>, j: nat)
    requires i <= j < |rows|
    requires ItemName(rows[j]) != "" && !QuantityAccepted(rows[j], host)
    requires forall r :: i <= r < j && ItemName(rows[r]) != "" ==> QuantityAccepted(rows[r], host)
    ensures CollectItems(rows, i, host, items) == Err(RowError(rows, j, host))
    decreases j - i
  {
    var error := Err(RowError(rows, j, host));
    if i == j {
      StopAtBadRow(rows, i, host, items);
    } else if ItemName(rows[i]) == "" {
      assert CollectItems(rows, i, host, items) == error by {
        SkipUnnamedRow(rows, i, host, items);
        CollectItemsFirstError(rows, i + 1, host, items, j);
      }
    } else {
      var next := items + [ExpectedItem(rows, i, |items| + 1, host)];
      assert CollectItems(rows, i, host, items) == error by {
        TakeGoodRow(rows, i, host, items);
        CollectItemsFirstError(rows, i + 1, host, next, j);
      }
    }
  }

  /** The item loop from `i` on reads only rows[i..]. */
  lemma {:induction false} CollectItemsReadsSuffix(rows: seq<Row>, other: seq<Row>, i: nat, host: Host, items: seq<RequisitionItem>)
    requires |rows| == |other| && i <= |rows|
    requires rows[i..] == other[i..]
    ensures CollectItems(rows, i, host, items) == CollectItems(other, i, host, items)
    decreases |rows| - i
  {
    if i < |rows| {
      assert rows[i] == rows[i..][0] == other[i..][0] == other[i];
      assert rows[i + 1..] == rows[i..][1..];
      assert other[i + 1..] == other[i..][1..];
      var row := rows[i];
      if ItemName(row) == "" {
        CollectItemsReadsSuffix(rows, other, i + 1, host, items);
      } else {
        var quantity := GetNumber(row, QuantityColumns, host);
        if quantity.Ok? && quantity.value > 0.0 {
          CollectItemsReadsSuffix(rows, other, i + 1, host, items + [LineItem(row, |items| + 1, ItemName(row), quantity.value)]);
        }
      }
    }
  }

  // ------------------------------------------------------------ whole parse

  /**
   * The parse succeeds exactly when there is a first row whose header parses,
   * at least one later row carries an item name, and every such row has an
   * accepted quantity.
   */
  lemma ParseSucceedsIff(rows: seq<Row>, host: Host)
    ensures Parse(rows, host).Ok? <==>
      && |rows| > 0
      && ParseHeader(rows[0], host).Ok?
      && (exists j :: 1 <= j < |rows| && ItemName(rows[j]) != "")
      && forall j :: 1 <= j < |rows| && ItemName(rows[j]) != "" ==> QuantityAccepted(rows[j], host)
  {
    if |rows| > 0 && ParseHeader(rows[0], host).Ok? {
      var named := NamedRows(rows, 1);
      if Parse(rows, host).Ok? {
        CollectItemsOk(rows, 1, host, []);
        assert 1 <= named[0] < |rows| && ItemName(rows[named[0]]) != "";
        forall j | 1 <= j < |rows| && ItemName(rows[j]) != ""
          ensures QuantityAccepted(rows[j], host)
        {
          NamedRowsComplete(rows, 1, j);
        }
      }
      if && (exists j :: 1 <= j < |rows| && ItemName(rows[j]) != "")
         && forall j :: 1 <= j < |rows| && ItemName(rows[j]) != "" ==> QuantityAccepted(rows[j], host)
      {
        var j :| 1 <= j < |rows| && ItemName(rows[j]) != "";
        NamedRowsComplete(rows, 1, j);
        CollectItemsAccepted(rows, 1, host, []);
        CollectItemsOk(rows, 1, host, []);
      }
    }
  }

  /**
   * A successful parse: the header is the first row's, and the items are the
   * named rows after it, in row order, numbered 1..N.
   */
  lemma ParseItems(rows: seq<Row>, host: Host)
    requires Parse(rows, host).Ok?
    ensures var p, named := Parse(rows, host).value, NamedRows(rows, 1);
      && p.requisition == ParseHeader(rows[0], host).value
      && |p.items| == |named|
      && forall k :: 0 <= k < |named| ==>
           QuantityAccepted(rows[named[k]], host) && p.items[k] == ExpectedItem(rows, named[k], k + 1, host)
  {
    CollectItemsOk(rows, 1, host, []);
  }

  /**
   * The first named row whose quantity is missing, not a number, zero or
   * negative aborts the whole parse with its error (the row cited as its data
   * index plus one); no items are returned.
   */
  lemma ParseFirstBadRow(rows: seq<Row>, host: Host, j: nat)
    requires |rows| > 0 && ParseHeader(rows[0], host).Ok?
    requires 1 <= j < |rows| && ItemName(rows[j]) != "" && !QuantityAccepted(rows[j], host)
    requires forall r :: 1 <= r < j && ItemName(rows[r]) != "" ==> QuantityAccepted(rows[r], host)
    ensures Parse(rows, host) == Err(RowError(rows, j, host))
  {
    CollectItemsFirstError(rows, 1, host, [], j);
  }

  /** Any later row with an item name and an unaccepted quantity makes the whole parse fail. */
  lemma ParseAbortsOnBadRow(rows: seq<Row>, host: Host, j: nat)
    requires 1 <= j < |rows| && ItemName(rows[j]) != ""
    requires !QuantityAccepted(rows[j], host)
    ensures Parse(rows, host).Err?
  {
    ParseSucceedsIff(rows, host);
  }

  /** With a good header but no later row carrying an item name, the parse fails NoItems. */
  lemma ParseNoItems(rows: seq<Row>, host: Host)
    requires |rows| > 0 && ParseHeader(rows[0], host).Ok?
    requires forall j :: 1 <= j < |rows| ==> ItemName(rows[j]) == ""
    ensures Parse(rows, host) == Err(NoItems)
  {
    NamedRowsNone(rows, 1);
    CollectItemsAccepted(rows, 1, host, []);
    CollectItemsOk(rows, 1, host, []);
    assert CollectItems(rows, 1, host, []) == Ok([]);
  }

  /**
   * The first row is never an item: replacing it by any other row whose
   * header parses changes the header and nothing else.
   */
  lemma FirstRowNeverItem(rows: seq<Row>, host: Host, first: Row)
    requires |rows| > 0 && Parse(rows, host).Ok?
    requires ParseHeader(first, host).Ok?
    ensures Parse([first] + rows[1..], host)
      == Ok(ParsedRequisition(ParseHeader(first, host).value, Parse(rows, host).value.items))
  {
    var other := [first] + rows[1..];
    assert other[1..] == rows[1..];
    CollectItemsReadsSuffix(rows, other, 1, host, []);
  }

  /** The quantity error's message names its row: different rows give different messages. */
  lemma QuantityMessageNamesRow(a: nat, b: nat)
    requires Message(QuantityNotPositive(a)) == Message(QuantityNotPositive(b))
    ensures a == b
  {
    var x, y := NatToString(a), NatToString(b);
    var tail := ": Quantity must be greater than 0";
    assert Message(QuantityNotPositive(a)) == "Row " + x + tail;
    assert Message(QuantityNotPositive(b)) == "Row " + y + tail;
    assert |x| == |y|;
    assert x == ("Row " + x + tail)[4..4 + |x|];
    assert y == ("Row " + y + tail)[4..4 + |y|];
    DecimalRoundTrip(a);
    DecimalRoundTrip(b);
  }

  /** Which of the nine errors `e` is. */
  function ErrorKind(e: ParseError): nat {
    match e
    case EmptyFile => 0
    case RequiredColumnNotFound(_) => 1
    case InvalidNumber(_) => 2
    case InvalidDate(_) => 3
    case VesselNameRequired => 4
    case PortNameRequired => 5
    case DeliveryDateRequired => 6
    case QuantityNotPositive(_) => 7
    case NoItems => 8
  }

  /** The kind of error a message reports, read off its characters 0, 1 and 8. */
  function MessageKind(m: string): nat
    requires |m| >= 9
  {
    if m[0] == 'E' then 0
    else if m[0] == 'R' then (if m[1] == 'e' then 1 else 7)
    else if m[0] == 'I' then (if m[8] == 'n' then 2 else 3)
    else if m[0] == 'V' then 4
    else if m[0] == 'P' then 5
    else if m[0] == 'D' then 6
    else 8
  }

  /** Every message tells which kind of error it reports. */
  lemma MessageShowsKind(e: ParseError)
    ensures |Message(e)| >= 9 && MessageKind(Message(e)) == ErrorKind(e)
  {
  }

  /**
   * Different errors give different messages, except that two lists of
   * column names can join to the same text.
   */
  lemma MessageIdentifiesError(a: ParseError, b: ParseError)
    requires Message(a) == Message(b)
    ensures a == b || (a.RequiredColumnNotFound? && b.RequiredColumnNotFound?)
  {
    MessageShowsKind(a);
    MessageShowsKind(b);
    match a
    case InvalidNumber(x) =>
      assert x == Message(a)[16..] && b.text == Message(b)[16..];
    case InvalidDate(x) =>
      assert x == Message(a)[14..] && b.text == Message(b)[14..];
    case QuantityNotPositive(n) =>
      QuantityMessageNamesRow(n, b.row);
    case _ =>
  }

  /** The exception: a column name holding " or " joins like two names. */
  lemma ColumnListsCanShareMessage()
    ensures Message(RequiredColumnNotFound(["Vessel or Port"])) == Message(RequiredColumnNotFound(["Vessel", "Port"]))
  {
    assert Join(["Vessel", "Port"], " or ") == "Vessel or Port";
  }
}
