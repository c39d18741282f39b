/** The completeness gate of `handleOptimize` (my-app/src/DeliveryOptimizer.jsx):
    before anything is sent, the names of line items still missing a
    dimension are collected into a `Set`; a non-empty set blocks the
    submission. */
module Gate {
  import opened JsValues
  import opened Sequences
  import opened Grouping

  /** A line item the gate reports: it has a truthy name and at least one
      falsy dimension (missing, null, 0 or ""). */
  predicate Incomplete(li: Value)
  {
    && Truthy(Get(li, "name"))
    && (!Truthy(Get(li, "width_cm")) || !Truthy(Get(li, "height_cm")) || !Truthy(Get(li, "length_cm")))
  }

  /** The items the gate visits in one order: its `line_items` when that is an
      array, nothing otherwise. */
  function ItemsOf(order: Value): seq<Value>
  {
    var lineItems := Get(order, "line_items");
    if lineItems.Arr? then lineItems.items else []
  }

  /** All items the gate visits, order after order. */
  function GateItems(orders: seq<Value>): seq<Value>
    decreases |orders|
  {
    if orders == [] then []
    else GateItems(orders[..|orders| - 1]) + ItemsOf(orders[|orders| - 1])
  }

  /** The names of the incomplete items, in visiting order, repeats included. */
  function MissingNames(items: seq<Value>): seq<Value>
    decreases |items|
  {
    if items == [] then []
    else
      var n := |items| - 1;
      MissingNames(items[..n]) + (if Incomplete(items[n]) then [Get(items[n], "name")] else [])
  }

  /** Reading `order.line_items` or `li.name` of a null or undefined value
      throws. */
  predicate GateThrows(orders: seq<Value>)
  {
    !NoNullish(orders) || !NoNullish(GateItems(orders))
  }

  /** The contents of `unmatchedMotos` after the loop, in insertion order, or
      the TypeError the loop throws. */
  function Unmatched(orders: seq<Value>): Completion<seq<Value>>
  {
    if GateThrows(orders) then TypeError else Normal(Distinct(MissingNames(GateItems(orders))))
  }

  lemma {:induction false} GateItemsAppend(a: seq<Value>, b: seq<Value>)
    ensures GateItems(a + b) == GateItems(a) + GateItems(b)
    decreases |b|
  {
    if b == [] {
      assert a + b == a;
    } else {
      var n := |b| - 1;
      assert (a + b)[..|a + b| - 1] == a + b[..n];
      GateItemsAppend(a, b[..n]);
    }
  }

  lemma MissingNamesSnoc(items: seq<Value>, li: Value)
    ensures MissingNames(items + [li]) ==
            MissingNames(items) + (if Incomplete(li) then [Get(li, "name")] else [])
  {
    assert (items + [li])[..|items|] == items;
  }

  lemma GateItemsSnoc(orders: seq<Value>, i: nat)
    requires i < |orders|
    ensures GateItems(orders[..i + 1]) == GateItems(orders[..i]) + ItemsOf(orders[i])
  {
    assert orders[..i + 1][..i] == orders[..i];
  }

  /** A null item anywhere makes the whole gate throw. */
  lemma NullishItemThrows(orders: seq<Value>, i: nat, j: nat)
    requires i < |orders| && j < |ItemsOf(orders[i])| && Nullish(ItemsOf(orders[i])[j])
    ensures GateThrows(orders)
  {
    var before := GateItems(orders[..i]);
    var own := ItemsOf(orders[i]);
    var after := GateItems(orders[i + 1..]);
    GateItemsSnoc(orders, i);
    GateItemsAppend(orders[..i + 1], orders[i + 1..]);
    assert orders[..i + 1] + orders[i + 1..] == orders;
    assert GateItems(orders) == before + own + after;
    assert (before + own + after)[|before| + j] == own[j];
  }

  /** The inner `forEach` over one order's line items: `Set.add` of each
      incomplete item's name to the names `unmatched` already holds. */
  method AddMissingNames(visited: seq<Value>, items: seq<Value>, unmatched: seq<Value>) returns (r: Completion<seq<Value>>)
    requires unmatched == Distinct(MissingNames(visited))
    ensures r.TypeError? <==> !NoNullish(items)
    ensures r.Normal? ==> r.value == Distinct(MissingNames(visited + items))
  {
    var names := unmatched;
    var j := 0;
    assert visited + items[..j] == visited;
    while j < |items|
      invariant 0 <= j <= |items|
      invariant NoNullish(items[..j])
      invariant names == Distinct(MissingNames(visited + items[..j]))
    {
      var li := items[j];
      if Nullish(li) {
        return TypeError;
      }
      ghost var seen := visited + items[..j];
      assert visited + items[..j + 1] == seen + [li];
      assert items[..j + 1] == items[..j] + [li];
      MissingNamesSnoc(seen, li);
      if Incomplete(li) {
        var name := Get(li, "name");
        assert MissingNames(seen + [li]) == MissingNames(seen) + [name];
        DistinctSnoc(MissingNames(seen), name);
        if name !in names {
          names := names + [name];
        }
      } else {
        assert MissingNames(seen + [li]) == MissingNames(seen) + [];
        assert MissingNames(seen) + [] == MissingNames(seen);
      }
      j := j + 1;
    }
    assert items[..j] == items;
    r := Normal(names);
  }

  lemma NoNullishAppend(a: seq<Value>, b: seq<Value>)
    ensures NoNullish(a + b) <==> NoNullish(a) && NoNullish(b)
  {
    assert forall i :: 0 <= i < |a| ==> a[i] == (a + b)[i];
    assert forall i :: 0 <= i < |b| ==> b[i] == (a + b)[|a| + i];
    if NoNullish(a) && NoNullish(b) {
      forall i | 0 <= i < |a + b| ensures !Nullish((a + b)[i]) {
        if i >= |a| {
          assert (a + b)[i] == b[i - |a|];
        }
      }
    }
  }

  /** The outer `forEach` of the gate over the enriched orders. */
  method CollectUnmatched(orders: seq<Value>) returns (r: Completion<seq<Value>>)
    ensures r == Unmatched(orders)
  {
    var unmatched: seq<Value> := [];
    var i := 0;
    while i < |orders|
      invariant 0 <= i <= |orders|
      invariant NoNullish(orders[..i]) && NoNullish(GateItems(orders[..i]))
      invariant unmatched == Distinct(MissingNames(GateItems(orders[..i])))
    {
      var order := orders[i];
      if Nullish(order) {
        return TypeError;
      }
      var visited := GateItems(orders[..i]);
      var items := ItemsOf(order);
      GateItemsSnoc(orders, i);
      NoNullishAppend(visited, items);
      var next := AddMissingNames(visited, items, unmatched);
      if next.TypeError? {
        var j :| 0 <= j < |items| && Nullish(items[j]);
        NullishItemThrows(orders, i, j);
        return TypeError;
      }
      unmatched := next.value;
      assert orders[..i + 1] == orders[..i] + [order];
      i := i + 1;
    }
    assert orders[..i] == orders;
    r := Normal(unmatched);
  }

  lemma {:induction false} MissingNamesMembership(items: seq<Value>, x: Value)
    ensures x in MissingNames(items) <==>
      exists j :: 0 <= j < |items| && Incomplete(items[j]) && Get(items[j], "name") == x
    decreases |items|
  {
    if items != [] {
      var n := |items| - 1;
      MissingNamesMembership(items[..n], x);
      if x in MissingNames(items[..n]) {
        var j :| 0 <= j < n && Incomplete(items[..n][j]) && Get(items[..n][j], "name") == x;
        assert items[j] == items[..n][j];
      }
      if exists j :: 0 <= j < |items| && Incomplete(items[j]) && Get(items[j], "name") == x {
        var j :| 0 <= j < |items| && Incomplete(items[j]) && Get(items[j], "name") == x;
        if j < n {
          assert items[..n][j] == items[j];
        }
      }
    }
  }

  /** The gate's set is exactly the distinct names of the incomplete items:
      each such name once, and nothing else. */
  lemma UnmatchedExactly(orders: seq<Value>, x: Value)
    requires !GateThrows(orders)
    ensures x in Unmatched(orders).value <==>
      exists j :: 0 <= j < |GateItems(orders)| && Incomplete(GateItems(orders)[j]) && Get(GateItems(orders)[j], "name") == x
    ensures NoDuplicates(Unmatched(orders).value)
  {
    assert Unmatched(orders).value == Distinct(MissingNames(GateItems(orders)));
    DistinctProperties(MissingNames(GateItems(orders)));
    MissingNamesMembership(GateItems(orders), x);
  }

  /** An empty set means every named item has all three dimensions. */
  lemma EmptyGateMeansComplete(orders: seq<Value>)
    requires Unmatched(orders) == Normal([])
    ensures forall j :: 0 <= j < |GateItems(orders)| ==> !Incomplete(GateItems(orders)[j])
  {
    forall j | 0 <= j < |GateItems(orders)| ensures !Incomplete(GateItems(orders)[j]) {
      UnmatchedExactly(orders, Get(GateItems(orders)[j], "name"));
    }
  }

  /** The gate over a single order with a single line item. */
  lemma GateOneItem(order: Value, li: Value)
    requires !Nullish(order) && ItemsOf(order) == [li]
    ensures Unmatched([order]) ==
      if Nullish(li) then TypeError
      else if Incomplete(li) then Normal([Get(li, "name")])
      else Normal([])
  {
    assert [order][..0] == [];
    assert GateItems([order]) == [li];
    assert [li][..0] == [];
    assert MissingNames([li]) == MissingNames([]) + (if Incomplete(li) then [Get(li, "name")] else []);
    assert Distinct([Get(li, "name")]) == [Get(li, "name")];
  }

  /** A dimension of 0 counts as missing: an item with every dimension but a
      zero width is reported. */
  lemma ZeroWidthIsMissing()
    ensures var li := Obj(map["name" := Str("TRK 251"), "width_cm" := Num(Decimal(0, 0)),
                              "height_cm" := Num(Decimal(11, 1)), "length_cm" := Num(Decimal(21, 1))]);
      Unmatched([Obj(map["line_items" := Arr([li])])]) == Normal([Str("TRK 251")])
  {
    var li := Obj(map["name" := Str("TRK 251"), "width_cm" := Num(Decimal(0, 0)),
                      "height_cm" := Num(Decimal(11, 1)), "length_cm" := Num(Decimal(21, 1))]);
    var orders := [Obj(map["line_items" := Arr([li])])];
    assert Incomplete(li);
    OneItemPerOrder(orders, [li]);
    assert MissingNames([li]) == MissingNames([]) + [Str("TRK 251")];
    assert Distinct([Str("TRK 251")]) == [Str("TRK 251")];
  }

  lemma {:induction false} OneItemPerOrder(orders: seq<Value>, items: seq<Value>)
    requires |orders| == |items|
    requires forall i :: 0 <= i < |orders| ==> orders[i] == Obj(map["line_items" := Arr([items[i]])])
    ensures GateItems(orders) == items
  {
    if orders != [] {
      var n := |orders| - 1;
      OneItemPerOrder(orders[..n], items[..n]);
      assert items == items[..n] + [items[n]];
    }
  }

  /** The same unknown product in two orders is reported once. */
  lemma RepeatedNameReportedOnce()
    ensures var li := Obj(map["name" := Str("Leoncino 125")]);
      Unmatched([Obj(map["line_items" := Arr([li])]), Obj(map["line_items" := Arr([li])])]) == Normal([Str("Leoncino 125")])
  {
    var li := Obj(map["name" := Str("Leoncino 125")]);
    var o := Obj(map["line_items" := Arr([li])]);
    OneItemPerOrder([o, o], [li, li]);
    assert Incomplete(li);
    var name := Str("Leoncino 125");
    assert [li, li][..1] == [li];
    assert MissingNames([li]) == MissingNames([]) + [name];
    assert MissingNames([li, li]) == [name, name];
    assert [name, name][..1] == [name];
    assert Distinct([name]) == [name];
  }
}
