/** `handleOptimize` (my-app/src/DeliveryOptimizer.jsx) up to the request it
    would send: the selection and input guards, the choice of the order list
    in the decoded JSON, enrichment, the completeness gate and the fleet
    descriptor. */
module Optimizer {
  import opened JsValues
  import opened Sequences
  import opened Catalog
  import opened Grouping
  import opened Normalize
  import opened Enrich
  import opened Gate
  import opened Fleet

  /** Why the handler stops before sending anything. */
  datatype OptimizeError =
    | NoTruckSelected
    | NoOrders
    | InvalidJson
    | Thrown
    | MotorcyclesNotFound(names: seq<Value>)

  /** The body of the request to the optimizer. */
  datatype Payload = Payload(orders: seq<Value>, fleet: seq<FleetEntry>, allowOrderSplitting: bool)

  datatype Outcome = Submit(payload: Payload) | Fail(error: OptimizeError)

  /** `Array.isArray(parsed) ? parsed : parsed.orders || [parsed]`; reading
      `orders` of `null` throws. */
  function SelectOrders(parsed: Value): Completion<Value>
  {
    if parsed.Arr? then Normal(parsed)
    else if Nullish(parsed) then TypeError
    else if Truthy(Get(parsed, "orders")) then Normal(Get(parsed, "orders"))
    else Normal(Arr([parsed]))
  }

  /** The top-level shape: an array is the order list itself; otherwise a
      truthy `orders` field is used, or else the value alone as a one-element
      list; only `null` fails. */
  lemma TopLevelShape(parsed: Value)
    ensures parsed.Arr? ==> SelectOrders(parsed) == Normal(parsed)
    ensures SelectOrders(parsed).TypeError? <==> parsed.Null? || parsed.Undefined?
    ensures parsed.Obj? && "orders" in parsed.fields && Truthy(parsed.fields["orders"]) ==>
      SelectOrders(parsed) == Normal(parsed.fields["orders"])
    ensures !parsed.Arr? && !Nullish(parsed) && !Truthy(Get(parsed, "orders")) ==>
      SelectOrders(parsed) == Normal(Arr([parsed]))
    ensures SelectOrders(parsed).Normal? ==> Truthy(SelectOrders(parsed).value)
  {
  }

  /** The rows `for (const row of ordersArray)` visits: an array's elements,
      a string's characters; any other value is not iterable and throws. */
  function IterateRows(v: Value): (r: Completion<seq<Value>>)
    ensures v.Arr? ==> r == Normal(v.items)
    ensures r.TypeError? <==> !v.Arr? && !v.Str?
    ensures v.Str? ==> r.Normal? && |r.value| == |v.s| && forall i :: 0 <= i < |v.s| ==> r.value[i] == Str([v.s[i]])
  {
    match v
    case Arr(items) => Normal(items)
    case Str(s) => Normal(seq(|s|, i requires 0 <= i < |s| => Str([s[i]])))
    case _ => TypeError
  }

  /** What `handleOptimize` does once the order list is chosen: iterate it,
      enrich, run the gate, and build the payload. It can stop only with a
      throw or with a non-empty list of unmatched names. */
  function AfterParse(ordersData: Value, selected: seq<Value>, trucks: seq<Truck>,
                      catalog: seq<Motorcycle>, allowOrderSplitting: bool): (r: Outcome)
    ensures r.Fail? ==> r.error.Thrown? || (r.error.MotorcyclesNotFound? && r.error.names != [])
  {
    match IterateRows(ordersData)
    case TypeError => Fail(Thrown)
    case Normal(rows) =>
      match Enriched(rows, catalog)
      case TypeError => Fail(Thrown)
      case Normal(orders) =>
        match Unmatched(orders)
        case TypeError => Fail(Thrown)
        case Normal(names) =>
          if names != [] then Fail(MotorcyclesNotFound(names))
          else Submit(Payload(orders, FleetPayload(trucks, selected), allowOrderSplitting))
  }

  /** What `handleOptimize` does with the page state: the error it shows, or
      the payload it sends. `decode` stands for `JSON.parse`, `None` for a
      syntax error. A TypeError inside the inner `try` is reported as invalid
      JSON; one thrown later reaches the outer `catch`. */
  function Optimize(selected: seq<Value>, ordersText: string, decode: string -> Option<Value>,
                    trucks: seq<Truck>, catalog: seq<Motorcycle>, allowOrderSplitting: bool): Outcome
  {
    if |selected| == 0 then Fail(NoTruckSelected)
    else if Trim(ordersText) == "" then Fail(NoOrders)
    else match decode(ordersText)
      case None => Fail(InvalidJson)
      case Some(parsed) =>
        match SelectOrders(parsed)
        case TypeError => Fail(InvalidJson)
        case Normal(ordersData) => AfterParse(ordersData, selected, trucks, catalog, allowOrderSplitting)
  }

  /** The handler: the guards in order, then the enrichment loop, then the
      gate loop, then the fleet. */
  method HandleOptimize(selected: seq<Value>, ordersText: string, decode: string -> Option<Value>,
                        trucks: seq<Truck>, catalog: seq<Motorcycle>, allowOrderSplitting: bool)
    returns (r: Outcome)
    ensures r == Optimize(selected, ordersText, decode, trucks, catalog, allowOrderSplitting)
  {
    if |selected| == 0 {
      return Fail(NoTruckSelected);
    }
    if Trim(ordersText) == "" {
      return Fail(NoOrders);
    }
    var parsed := decode(ordersText);
    if parsed.None? {
      return Fail(InvalidJson);
    }
    var ordersData := SelectOrders(parsed.value);
    if ordersData.TypeError? {
      return Fail(InvalidJson);
    }
    var rows := IterateRows(ordersData.value);
    if rows.TypeError? {
      return Fail(Thrown);
    }
    var enriched := EnrichOrders(rows.value, catalog);
    if enriched.TypeError? {
      return Fail(Thrown);
    }
    var unmatched := CollectUnmatched(enriched.value);
    if unmatched.TypeError? {
      return Fail(Thrown);
    }
    if unmatched.value != [] {
      return Fail(MotorcyclesNotFound(unmatched.value));
    }
    r := Submit(Payload(enriched.value, FleetPayload(trucks, selected), allowOrderSplitting));
  }

  // The texts the handler shows. The longer ones are built from shorter
  // literals, whose characters the verifier can read.
  const NoTruckText := "Veuillez s\U{E9}lectionner au moins un camion"
  const NoOrdersText := "Veuillez charger des commandes " + "(JSON ou Excel)"
  const InvalidJsonText := "Format JSON invalide"
  const UnmatchedPrefix := "\U{26A0}\U{FE0F} Motos non trouv\U{E9}es " + "dans la base de donn\U{E9}es: "
  const UnmatchedSuffix := "\n\nVeuillez les ajouter dans la page \"G\U{E9}rer Motos\" avant de continuer."

  /** The text of the gate's error: the names joined by ", ". */
  function UnmatchedMessage(names: seq<Value>): string
  {
    UnmatchedPrefix + Join(seq(|names|, i requires 0 <= i < |names| => ToJsString(names[i])), ", ") + UnmatchedSuffix
  }

  /** Every unmatched name appears, as `String(name)`, in the gate's text. */
  lemma UnmatchedMessageNames(names: seq<Value>, i: nat)
    requires i < |names|
    ensures Includes(UnmatchedMessage(names), ToJsString(names[i]))
  {
    var parts := seq(|names|, j requires 0 <= j < |names| => ToJsString(names[j]));
    JoinIncludesParts(parts, ", ", i);
    IncludesInMiddle(UnmatchedPrefix, Join(parts, ", "), UnmatchedSuffix, parts[i]);
  }

  /** The text shown for each way of stopping; a thrown error shows its own
      message, which is not modelled. */
  function ErrorMessage(e: OptimizeError): (r: Option<string>)
    ensures r.None? <==> e.Thrown?
  {
    match e
    case NoTruckSelected => Some(NoTruckText)
    case NoOrders => Some(NoOrdersText)
    case InvalidJson => Some(InvalidJsonText)
    case Thrown => None
    case MotorcyclesNotFound(names) => Some(UnmatchedMessage(names))
  }

  /** The gate's text starts with the warning sign, so it is never one of
      the fixed texts. */
  lemma UnmatchedMessageDiffers(names: seq<Value>)
    ensures UnmatchedMessage(names) != NoTruckText
    ensures UnmatchedMessage(names) != NoOrdersText
    ensures UnmatchedMessage(names) != InvalidJsonText
  {
    var joined := Join(seq(|names|, i requires 0 <= i < |names| => ToJsString(names[i])), ", ");
    assert UnmatchedPrefix[0] == '\U{26A0}';
    assert UnmatchedMessage(names) == UnmatchedPrefix + (joined + UnmatchedSuffix);
    assert UnmatchedMessage(names)[0] == '\U{26A0}';
  }

  /** The three fixed texts differ from each other. */
  lemma FixedTextsDistinct()
    ensures NoTruckText != NoOrdersText && NoTruckText != InvalidJsonText && NoOrdersText != InvalidJsonText
  {
    assert NoTruckText[9] == 's' && NoOrdersText[9] == 'c';
    assert InvalidJsonText[0] == 'F' && NoTruckText[0] == 'V' && NoOrdersText[0] == 'V';
  }

  /** When the handler stops, the page shows the guard's fixed text exactly
      for the guard that failed. */
  lemma ShownError(selected: seq<Value>, ordersText: string, decode: string -> Option<Value>,
                   trucks: seq<Truck>, catalog: seq<Motorcycle>, allowOrderSplitting: bool)
    requires Optimize(selected, ordersText, decode, trucks, catalog, allowOrderSplitting).Fail?
    ensures var shown := ErrorMessage(Optimize(selected, ordersText, decode, trucks, catalog, allowOrderSplitting).error);
      && (shown == Some(NoTruckText) <==> |selected| == 0)
      && (shown == Some(NoOrdersText) <==> |selected| > 0 && Blank(ordersText))
      && (shown == Some(InvalidJsonText) <==>
            |selected| > 0 && !Blank(ordersText)
            && (decode(ordersText).None? || SelectOrders(decode(ordersText).value).TypeError?))
  {
    FixedTextsDistinct();
    var o := Optimize(selected, ordersText, decode, trucks, catalog, allowOrderSplitting);
    if |selected| == 0 {
      assert o.error == NoTruckSelected;
    } else if Trim(ordersText) == "" {
      assert o.error == NoOrders;
    } else if decode(ordersText).None? || SelectOrders(decode(ordersText).value).TypeError? {
      assert o.error == InvalidJson;
    } else {
      var ordersData := SelectOrders(decode(ordersText).value).value;
      assert o == AfterParse(ordersData, selected, trucks, catalog, allowOrderSplitting);
      if o.error.MotorcyclesNotFound? {
        UnmatchedMessageDiffers(o.error.names);
      }
    }
  }

  /** Nothing is sent unless every line item with a name has all three
      dimensions, and the fleet sent is the selected trucks' descriptor. */
  lemma SubmitOnlyComplete(selected: seq<Value>, ordersText: string, decode: string -> Option<Value>,
                           trucks: seq<Truck>, catalog: seq<Motorcycle>, allowOrderSplitting: bool)
    requires Optimize(selected, ordersText, decode, trucks, catalog, allowOrderSplitting).Submit?
    ensures var p := Optimize(selected, ordersText, decode, trucks, catalog, allowOrderSplitting).payload;
      && |selected| > 0
      && !Blank(ordersText)
      && (forall j :: 0 <= j < |GateItems(p.orders)| ==> !Incomplete(GateItems(p.orders)[j]))
      && p.fleet == FleetPayload(trucks, selected)
      && p.allowOrderSplitting == allowOrderSplitting
  {
    var rows := IterateRows(SelectOrders(decode(ordersText).value).value).value;
    var orders := Enriched(rows, catalog).value;
    assert Optimize(selected, ordersText, decode, trucks, catalog, allowOrderSplitting)
           == Submit(Payload(orders, FleetPayload(trucks, selected), allowOrderSplitting));
    EmptyGateMeansComplete(orders);
  }

  /** A non-empty unmatched set stops the handler with exactly that set,
      whichever shape (array, `orders` field or single order) the decoded
      JSON has. */
  lemma GateBlocks(selected: seq<Value>, ordersText: string, decode: string -> Option<Value>,
                   trucks: seq<Truck>, catalog: seq<Motorcycle>, allowOrderSplitting: bool,
                   v: Value, rows: seq<Value>)
    requires |selected| > 0 && !Blank(ordersText)
    requires decode(ordersText).Some? && SelectOrders(decode(ordersText).value) == Normal(v)
    requires IterateRows(v) == Normal(rows)
    requires Enriched(rows, catalog).Normal?
    requires Unmatched(Enriched(rows, catalog).value).Normal?
    requires Unmatched(Enriched(rows, catalog).value).value != []
    ensures Optimize(selected, ordersText, decode, trucks, catalog, allowOrderSplitting)
            == Fail(MotorcyclesNotFound(Unmatched(Enriched(rows, catalog).value).value))
  {
  }

  /** The JSON order of the two scenarios below: id 1, one item "TRK 251"
      with quantity 2. */
  const ScenarioItem: Value := Obj(map["name" := Str("TRK 251"), "quantity" := Num(Decimal(2, 0))])
  const ScenarioRow: Value := Obj(map["id" := Num(Decimal(1, 0)), "line_items" := Arr([ScenarioItem])])

  /** The order once its item carries `m`'s dimensions. */
  function ResolvedScenarioOrder(m: Motorcycle): Value
  {
    Obj(ScenarioRow.fields["line_items" := Arr([Obj(Overlay(ScenarioItem.fields, m))])])
  }

  /** With a catalog that knows "TRK 251" the item gets its dimensions
      (220 × 125 × 80 cm) and the order is the only one produced. */
  lemma ScenarioMatchedEnrichment(m: Motorcycle)
    requires m.name == "TRK 251"
    requires m.widthCm == Some(Decimal(22, 1)) && m.heightCm == Some(Decimal(125, 0)) && m.lengthCm == Some(Decimal(8, 1))
    ensures Enriched([ScenarioRow], [m]) == Normal([ResolvedScenarioOrder(m)])
    ensures var item := ResolvedScenarioOrder(m).fields["line_items"].items[0];
      && Get(item, "width_cm") == Num(Decimal(22, 1))
      && Get(item, "height_cm") == Num(Decimal(125, 0))
      && Get(item, "length_cm") == Num(Decimal(8, 1))
  {
    ScenarioGroupResolved(m);
    SingleRow(ScenarioRow, [m]);
    ScenarioItemDimensions(m);
  }

  /** The resolved item carries `m`'s three columns. */
  lemma ScenarioItemDimensions(m: Motorcycle)
    ensures ItemsOf(ResolvedScenarioOrder(m)) == [Obj(Overlay(ScenarioItem.fields, m))]
    ensures var item := ResolvedScenarioOrder(m).fields["line_items"].items[0];
      && item == Obj(Overlay(ScenarioItem.fields, m))
      && Get(item, "width_cm") == ColumnValue(m.widthCm)
      && Get(item, "height_cm") == ColumnValue(m.heightCm)
      && Get(item, "length_cm") == ColumnValue(m.lengthCm)
  {
    assert "width_cm"[0] == 'w' && "height_cm"[0] == 'h' && "length_cm"[0] == 'l';
  }

  lemma ScenarioItemResolved(m: Motorcycle)
    requires m.name == "TRK 251"
    ensures EnrichItems([ScenarioItem], [m]) == Normal([Obj(Overlay(ScenarioItem.fields, m))])
  {
    var item := Obj(Overlay(ScenarioItem.fields, m));
    assert Lower("TRK 251") == "trk 251";
    assert FindMotorcycle([m], Str("TRK 251")) == Some(m);
    assert EnrichItem(ScenarioItem, [m]) == Normal(item);
    assert [ScenarioItem][..0] == [];
    assert EnrichItems([], [m]) == Normal([]);
    assert [] + [item] == [item];
  }

  lemma ScenarioGroupResolved(m: Motorcycle)
    requires m.name == "TRK 251"
    ensures NormalizeGroup([ScenarioRow], [m]) == Normal(Some(ResolvedScenarioOrder(m)))
  {
    ScenarioItemResolved(m);
    assert Get(ScenarioRow, "line_items") == Arr([ScenarioItem]);
  }

  /** ... and the gate finds nothing missing, so the request goes out. */
  lemma ScenarioMatchedGate(m: Motorcycle)
    requires m.widthCm == Some(Decimal(22, 1)) && m.heightCm == Some(Decimal(125, 0)) && m.lengthCm == Some(Decimal(8, 1))
    ensures Unmatched([ResolvedScenarioOrder(m)]) == Normal([])
  {
    var item := Obj(Overlay(ScenarioItem.fields, m));
    ScenarioItemDimensions(m);
    assert !Incomplete(item);
    GateOneItem(ResolvedScenarioOrder(m), item);
  }

  /** Against a catalog without "TRK 251" the order comes out unchanged ... */
  lemma ScenarioUnmatchedEnrichment()
    ensures Enriched([ScenarioRow], []) == Normal([ScenarioRow])
  {
    assert FindMotorcycle([], Str("TRK 251")) == None;
    assert EnrichItem(ScenarioItem, []) == Normal(ScenarioItem);
    assert [ScenarioItem][..0] == [];
    assert EnrichItems([], []) == Normal([]);
    assert [] + [ScenarioItem] == [ScenarioItem];
    assert EnrichItems([ScenarioItem], []) == Normal([ScenarioItem]);
    assert ScenarioRow.fields["line_items" := Arr([ScenarioItem])] == ScenarioRow.fields;
    assert Get(ScenarioRow, "line_items") == Arr([ScenarioItem]);
    assert NormalizeGroup([ScenarioRow], []) == Normal(Some(ScenarioRow));
    SingleRow(ScenarioRow, []);
  }

  /** ... and the gate reports exactly that name. */
  lemma ScenarioUnmatchedGate()
    ensures Unmatched([ScenarioRow]) == Normal([Str("TRK 251")])
  {
    assert ItemsOf(ScenarioRow) == [ScenarioItem];
    GateOneItem(ScenarioRow, ScenarioItem);
  }
}
