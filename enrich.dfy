/** `enrichOrders` (my-app/src/DeliveryOptimizer.jsx): group the rows by id,
    then visit the groups in `Object.entries` order and push one canonical
    order for every group of a known shape. */
module Enrich {
  import opened JsValues
  import opened Sequences
  import opened Catalog
  import opened Grouping
  import opened Normalize

  predicate AllGroupsNonEmpty(rows: seq<Value>, keys: seq<string>)
  {
    forall i :: 0 <= i < |keys| ==> RowsWithKey(rows, keys[i]) != []
  }

  /** One step of the loop: push the group's order, if it has one; a throw
      ends the loop. */
  function Push(prior: Completion<seq<Value>>, step: Completion<Option<Value>>): Completion<seq<Value>>
  {
    match prior
    case TypeError => TypeError
    case Normal(orders) =>
      match step
      case TypeError => TypeError
      case Normal(None) => Normal(orders)
      case Normal(Some(o)) => Normal(orders + [o])
  }

  /** The orders pushed while visiting `keys`, in that order. */
  function NormalizeEach(rows: seq<Value>, keys: seq<string>, catalog: seq<Motorcycle>): Completion<seq<Value>>
    requires AllGroupsNonEmpty(rows, keys)
    decreases |keys|
  {
    if keys == [] then Normal([])
    else
      var n := |keys| - 1;
      Push(NormalizeEach(rows, keys[..n], catalog), NormalizeGroup(RowsWithKey(rows, keys[n]), catalog))
  }

  /** Every key in entry order is a key of the table, with at least one row. */
  lemma EntryKeysGrouped(t: GroupTable, rows: seq<Value>)
    requires Describes(t, rows)
    ensures AllGroupsNonEmpty(rows, EntryOrder(t.insertion))
    ensures forall k :: k in EntryOrder(t.insertion) ==> k in t.groups && t.groups[k] == RowsWithKey(rows, k)
  {
    var keys := t.insertion;
    DistinctProperties(RowKeys(rows));
    EntryOrderProperties(keys);
    forall k | k in EntryOrder(keys) ensures k in keys && RowsWithKey(rows, k) != [] {
      assert k in multiset(EntryOrder(keys));
      RowsWithKeyEmpty(rows, k);
    }
  }

  /** Every key in entry order has at least one row. */
  lemma EntryKeysNonEmpty(rows: seq<Value>)
    ensures AllGroupsNonEmpty(rows, EntryOrder(FirstSeenKeys(rows)))
  {
    GroupMapDescribes(rows);
    EntryKeysGrouped(GroupTable(GroupMap(rows), FirstSeenKeys(rows)), rows);
  }

  /** What `enrichOrders(rows)` returns, or the TypeError it throws. */
  function Enriched(rows: seq<Value>, catalog: seq<Motorcycle>): Completion<seq<Value>>
  {
    if !NoNullish(rows) then TypeError
    else
      EntryKeysNonEmpty(rows);
      NormalizeEach(rows, EntryOrder(FirstSeenKeys(rows)), catalog)
  }

  /** Once a group throws, the whole visit throws. */
  lemma {:induction false} ThrowPropagates(rows: seq<Value>, keys: seq<string>, j: nat, catalog: seq<Motorcycle>)
    requires AllGroupsNonEmpty(rows, keys)
    requires j <= |keys|
    requires NormalizeEach(rows, keys[..j], catalog) == TypeError
    ensures NormalizeEach(rows, keys, catalog) == TypeError
    decreases |keys| - j
  {
    if j < |keys| {
      assert keys[..j + 1][..j] == keys[..j];
      ThrowPropagates(rows, keys, j + 1, catalog);
    } else {
      assert keys[..j] == keys;
    }
  }

  /** One more key visited: its group's order is pushed. */
  lemma NormalizeEachStep(rows: seq<Value>, keys: seq<string>, i: nat, catalog: seq<Motorcycle>)
    requires AllGroupsNonEmpty(rows, keys) && i < |keys|
    ensures NormalizeEach(rows, keys[..i + 1], catalog) ==
      Push(NormalizeEach(rows, keys[..i], catalog), NormalizeGroup(RowsWithKey(rows, keys[i]), catalog))
  {
    assert keys[..i + 1][..i] == keys[..i];
  }

  /** The result of a visit that did not throw. */
  lemma EnrichedVisits(rows: seq<Value>, catalog: seq<Motorcycle>)
    requires NoNullish(rows)
    ensures AllGroupsNonEmpty(rows, EntryOrder(FirstSeenKeys(rows)))
    ensures Enriched(rows, catalog) == NormalizeEach(rows, EntryOrder(FirstSeenKeys(rows)), catalog)
  {
    EntryKeysNonEmpty(rows);
  }

  /** `enrichOrders`: group the rows, then visit the groups in entry order. */
  method EnrichOrders(rows: seq<Value>, catalog: seq<Motorcycle>) returns (r: Completion<seq<Value>>)
    ensures r == Enriched(rows, catalog)
  {
    var table := GroupRows(rows);
    if table.TypeError? {
      return TypeError;
    }
    EntryKeysGrouped(table.value, rows);
    EnrichedVisits(rows, catalog);
    r := VisitGroups(rows, table.value.groups, EntryOrder(table.value.insertion), catalog);
  }

  /** The loop over `Object.entries(groupedByOrderId)`: each group's order
      is pushed in turn. */
  method VisitGroups(rows: seq<Value>, groups: map<string, seq<Value>>, keys: seq<string>, catalog: seq<Motorcycle>)
    returns (r: Completion<seq<Value>>)
    requires AllGroupsNonEmpty(rows, keys)
    requires forall k :: k in keys ==> k in groups && groups[k] == RowsWithKey(rows, k)
    ensures r == NormalizeEach(rows, keys, catalog)
  {
    var enriched: seq<Value> := [];
    var i := 0;
    while i < |keys|
      invariant 0 <= i <= |keys|
      invariant NormalizeEach(rows, keys[..i], catalog) == Normal(enriched)
    {
      var key := keys[i];
      var group := groups[key];
      NormalizeEachStep(rows, keys, i, catalog);
      var next := Push(Normal(enriched), NormalizeGroup(group, catalog));
      if next.TypeError? {
        ThrowPropagates(rows, keys, i + 1, catalog);
        return TypeError;
      }
      enriched := next.value;
      i := i + 1;
    }
    assert keys[..i] == keys;
    r := Normal(enriched);
  }

  /** At most one order comes out per distinct id. */
  lemma {:induction false} AtMostOneOrderPerKey(rows: seq<Value>, keys: seq<string>, catalog: seq<Motorcycle>)
    requires AllGroupsNonEmpty(rows, keys)
    ensures NormalizeEach(rows, keys, catalog).Normal? ==> |NormalizeEach(rows, keys, catalog).value| <= |keys|
    decreases |keys|
  {
    if keys != [] {
      AtMostOneOrderPerKey(rows, keys[..|keys| - 1], catalog);
    }
  }

  /** Rows that all share the key `k` form the single group `k`. */
  lemma SingleKeyGroup(rows: seq<Value>, k: string)
    requires |rows| > 0
    requires forall i :: 0 <= i < |rows| ==> GroupKey(rows[i]) == k
    ensures EntryOrder(FirstSeenKeys(rows)) == [k]
    ensures RowsWithKey(rows, k) == rows
  {
    SameKeysDistinct(RowKeys(rows), k);
    assert Filter([k], IsArrayIndex) == if IsArrayIndex(k) then [k] else [];
    assert Filter([k], IsNamedKey) == if IsNamedKey(k) then [k] else [];
    FilterKeepsAll(rows, (row: Value) => GroupKey(row) == k);
  }

  /** N spreadsheet rows sharing one id collapse into exactly one order with
      N line items, in row order. */
  lemma FlatRowsCollapse(rows: seq<Value>, catalog: seq<Motorcycle>)
    requires |rows| > 0 && NoNullish(rows)
    requires forall i :: 0 <= i < |rows| ==> GroupKey(rows[i]) == GroupKey(rows[0])
    requires IsFlatShape(rows[0])
    ensures Enriched(rows, catalog) == Normal([FlatOrder(rows, catalog)])
    ensures |FlatOrder(rows, catalog).fields["line_items"].items| == |rows|
    ensures forall i :: 0 <= i < |rows| ==>
      Get(FlatOrder(rows, catalog).fields["line_items"].items[i], "name") == Get(rows[i], "line_item_name")
  {
    FlatOrderItems(rows, catalog);
    var k := GroupKey(rows[0]);
    SingleKeyGroup(rows, k);
    EntryKeysNonEmpty(rows);
    assert [k][..0] == [];
    var step := NormalizeGroup(rows, catalog);
    assert step == Normal(Some(FlatOrder(rows, catalog)));
    assert NormalizeEach(rows, [k], catalog) == Push(Normal([]), step);
    assert [] + [FlatOrder(rows, catalog)] == [FlatOrder(rows, catalog)];
    assert Enriched(rows, catalog) == NormalizeEach(rows, EntryOrder(FirstSeenKeys(rows)), catalog);
  }

  /** A single row is a single group: the result is that group's order, if
      it has one. */
  lemma SingleRow(row: Value, catalog: seq<Motorcycle>)
    requires !Nullish(row)
    ensures Enriched([row], catalog) == Push(Normal([]), NormalizeGroup([row], catalog))
    ensures NormalizeGroup([row], catalog).Normal? && NormalizeGroup([row], catalog).value.Some? ==>
      Enriched([row], catalog) == Normal([NormalizeGroup([row], catalog).value.value])
  {
    var k := GroupKey(row);
    SingleKeyGroup([row], k);
    EntryKeysNonEmpty([row]);
    assert [k][..0] == [];
    assert Enriched([row], catalog) == NormalizeEach([row], EntryOrder(FirstSeenKeys([row])), catalog);
    var step := NormalizeGroup([row], catalog);
    if step.Normal? && step.value.Some? {
      assert [] + [step.value.value] == [step.value.value];
    }
  }

  lemma {:induction false} SameKeysDistinct(s: seq<string>, k: string)
    requires |s| > 0
    requires forall i :: 0 <= i < |s| ==> s[i] == k
    ensures Distinct(s) == [k]
    decreases |s|
  {
    if |s| > 1 {
      SameKeysDistinct(s[..|s| - 1], k);
    } else {
      assert s[..0] == [];
    }
  }
}
