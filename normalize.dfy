/** The second half of `enrichOrders` (my-app/src/DeliveryOptimizer.jsx):
    one group of rows becomes one canonical order. A group whose first row
    carries a `line_items` array is a JSON order whose items get catalog
    dimensions; a group whose first row has a truthy `line_item_name` is a
    spreadsheet order with one item per row; any other group is dropped. */
module Normalize {
  import opened JsValues
  import opened Catalog
  import opened Sequences

  /** The three fields the catalog supplies. */
  const DimensionKeys: set<string> := {"width_cm", "height_cm", "length_cm"}

  /** `{...li, width_cm, height_cm, length_cm}` with the motorcycle's values. */
  function Overlay(fields: map<string, Value>, m: Motorcycle): map<string, Value>
  {
    fields["width_cm" := ColumnValue(m.widthCm)]["height_cm" := ColumnValue(m.heightCm)]["length_cm" := ColumnValue(m.lengthCm)]
  }

  /** The item carries exactly the dimensions of `m` and, apart from them,
      exactly the fields of `li`. */
  ghost predicate OverlaidFrom(item: Value, li: Value, m: Motorcycle)
  {
    && li.Obj? && item.Obj?
    && item.fields.Keys == li.fields.Keys + DimensionKeys
    && (forall k :: k in li.fields && k !in DimensionKeys ==> item.fields[k] == li.fields[k])
    && item.fields["width_cm"] == ColumnValue(m.widthCm)
    && item.fields["height_cm"] == ColumnValue(m.heightCm)
    && item.fields["length_cm"] == ColumnValue(m.lengthCm)
  }

  /** The spread keeps every other field of the item and sets the three
      dimensions to the motorcycle's, whatever the item held before;
      spreading again changes nothing. */
  lemma OverlayMeaning(li: Value, m: Motorcycle)
    requires li.Obj?
    ensures OverlaidFrom(Obj(Overlay(li.fields, m)), li, m)
    ensures Overlay(Overlay(li.fields, m), m) == Overlay(li.fields, m)
  {
  }

  /** The callback of `firstRow.line_items.map`: an item whose name has a
      catalog hit gets the catalog's three dimensions and keeps every other
      field; an item without a name, or without a hit, is returned as it is.
      Reading `li.name` of a null item throws. */
  function EnrichItem(li: Value, catalog: seq<Motorcycle>): (r: Completion<Value>)
    ensures r.TypeError? <==> Nullish(li)
    ensures r.Normal? && FindMotorcycle(catalog, Get(li, "name")).Some? ==>
      OverlaidFrom(r.value, li, FindMotorcycle(catalog, Get(li, "name")).value)
    ensures r.Normal? && FindMotorcycle(catalog, Get(li, "name")).None? ==> r.value == li
  {
    if Nullish(li) then TypeError
    else
      var name := Get(li, "name");
      if Truthy(name) then
        match FindMotorcycle(catalog, name)
        case Some(m) => Normal(Obj(Overlay(li.fields, m)))
        case None => Normal(li)
      else Normal(li)
  }

  /** `line_items.map(...)`: item by item, in order; the first null item throws. */
  function EnrichItems(items: seq<Value>, catalog: seq<Motorcycle>): Completion<seq<Value>>
    decreases |items|
  {
    if items == [] then Normal([])
    else
      var n := |items| - 1;
      match EnrichItems(items[..n], catalog)
      case TypeError => TypeError
      case Normal(prior) =>
        match EnrichItem(items[n], catalog)
        case TypeError => TypeError
        case Normal(item) => Normal(prior + [item])
  }

  /** The map throws exactly when some item is null; otherwise item `i` of
      the result is the callback's value on item `i`. */
  lemma {:induction false} EnrichItemsElementwise(items: seq<Value>, catalog: seq<Motorcycle>)
    ensures EnrichItems(items, catalog).TypeError? <==> !NoNullish(items)
    ensures EnrichItems(items, catalog).Normal? ==>
      && |EnrichItems(items, catalog).value| == |items|
      && forall i :: 0 <= i < |items| ==> EnrichItem(items[i], catalog) == Normal(EnrichItems(items, catalog).value[i])
    decreases |items|
  {
    if items != [] {
      var n := |items| - 1;
      var front := items[..n];
      EnrichItemsElementwise(front, catalog);
      var prior := EnrichItems(front, catalog);
      if prior.TypeError? {
        var i :| 0 <= i < n && Nullish(front[i]);
        assert Nullish(items[i]);
      } else if !Nullish(items[n]) {
        var r := EnrichItems(items, catalog).value;
        assert r == prior.value + [EnrichItem(items[n], catalog).value];
        forall i | 0 <= i < |items| ensures !Nullish(items[i]) && EnrichItem(items[i], catalog) == Normal(r[i]) {
          if i < n {
            assert front[i] == items[i];
          }
        }
      }
    }
  }

  /** One spreadsheet row as a line item: dimensions from the catalog on a
      hit, `null` otherwise. */
  function FlatItem(row: Value, catalog: seq<Motorcycle>): Value
  {
    var productName := Get(row, "line_item_name");
    var moto := FindMotorcycle(catalog, productName);
    Obj(map[
      "name" := productName,
      "sku" := Get(row, "line_item_sku"),
      "quantity" := Get(row, "line_item_quantity"),
      "price" := Get(row, "line_item_price"),
      "width_cm" := if moto.Some? then ColumnValue(moto.value.widthCm) else Null,
      "height_cm" := if moto.Some? then ColumnValue(moto.value.heightCm) else Null,
      "length_cm" := if moto.Some? then ColumnValue(moto.value.lengthCm) else Null])
  }

  /** Order-level fields copied from the first row under the same name. */
  const HeaderKeys: set<string> := {
    "id", "number", "status", "date_created", "shipping_date", "total",
    "shipping_total", "payment_method_title"
  }

  /** Fields of the `billing` object, each read from `billing_<field>`. */
  const BillingKeys: set<string> := {"first_name", "last_name", "address_1", "city", "email", "phone"}

  /** The header fields copied from the first row. */
  function HeaderOf(first: Value): (r: map<string, Value>)
    ensures r.Keys == HeaderKeys
    ensures forall k :: k in HeaderKeys ==> r[k] == Get(first, k)
  {
    map k | k in HeaderKeys :: Get(first, k)
  }

  /** The `billing` object rebuilt from the flattened `billing_*` fields. */
  function BillingOf(first: Value): (r: map<string, Value>)
    ensures r.Keys == BillingKeys
    ensures forall k :: k in BillingKeys ==> r[k] == Get(first, "billing_" + k)
  {
    map k | k in BillingKeys :: Get(first, "billing_" + k)
  }

  /** The spreadsheet branch: one order built from the first row's header,
      billing and shipping fields, with one line item per row. */
  function FlatOrder(rows: seq<Value>, catalog: seq<Motorcycle>): Value
    requires |rows| > 0
  {
    var first := rows[0];
    var items := seq(|rows|, i requires 0 <= i < |rows| => FlatItem(rows[i], catalog));
    var shipping := Obj(map["method_title" := Get(first, "shipping_method_title")]);
    Obj(HeaderOf(first)["billing" := Obj(BillingOf(first))]["line_items" := Arr(items)]["shipping_lines" := Arr([shipping])])
  }

  /** The spreadsheet order's header: every header and billing field comes
      from the first row, and the single shipping line carries the first
      row's shipping method. */
  lemma FlatOrderHeader(rows: seq<Value>, catalog: seq<Motorcycle>)
    requires |rows| > 0
    ensures var o := FlatOrder(rows, catalog);
      && o.Obj?
      && o.fields.Keys == HeaderKeys + {"billing", "line_items", "shipping_lines"}
      && (forall k :: k in HeaderKeys ==> o.fields[k] == Get(rows[0], k))
      && (forall k :: k in BillingKeys ==> Get(o.fields["billing"], k) == Get(rows[0], "billing_" + k))
      && o.fields["shipping_lines"] == Arr([Obj(map["method_title" := Get(rows[0], "shipping_method_title")])])
  {
    var first := rows[0];
    assert "billing" !in HeaderKeys && "line_items" !in HeaderKeys && "shipping_lines" !in HeaderKeys;
    var o := FlatOrder(rows, catalog);
    forall k | k in HeaderKeys ensures o.fields[k] == Get(first, k) {
      assert k != "billing" && k != "line_items" && k != "shipping_lines";
    }
  }

  /** The spreadsheet order's items: N rows give N items, in row order, each
      named by its row's `line_item_name`. */
  lemma FlatOrderItems(rows: seq<Value>, catalog: seq<Motorcycle>)
    requires |rows| > 0
    ensures var o := FlatOrder(rows, catalog);
      && o.Obj? && "line_items" in o.fields
      && o.fields["line_items"].Arr?
      && |o.fields["line_items"].items| == |rows|
      && (forall i :: 0 <= i < |rows| ==> o.fields["line_items"].items[i] == FlatItem(rows[i], catalog))
      && (forall i :: 0 <= i < |rows| ==> Get(o.fields["line_items"].items[i], "name") == Get(rows[i], "line_item_name"))
  {
    var first := rows[0];
    var items := seq(|rows|, i requires 0 <= i < |rows| => FlatItem(rows[i], catalog));
    var shipping := Obj(map["method_title" := Get(first, "shipping_method_title")]);
    var withItems := HeaderOf(first)["billing" := Obj(BillingOf(first))]["line_items" := Arr(items)];
    assert FlatOrder(rows, catalog) == Obj(withItems["shipping_lines" := Arr([shipping])]);
    assert withItems["shipping_lines" := Arr([shipping])]["line_items"] == Arr(items);
    forall i | 0 <= i < |rows| ensures Get(items[i], "name") == Get(rows[i], "line_item_name") {
      FlatItemName(rows[i], catalog);
    }
  }

  lemma FlatItemName(row: Value, catalog: seq<Motorcycle>)
    ensures Get(FlatItem(row, catalog), "name") == Get(row, "line_item_name")
  {
  }

  /** A spreadsheet item's dimensions: the catalog's on a hit, null on a miss. */
  lemma FlatItemDimensions(row: Value, catalog: seq<Motorcycle>)
    ensures var item := FlatItem(row, catalog);
      match FindMotorcycle(catalog, Get(row, "line_item_name"))
      case Some(m) =>
        && Get(item, "width_cm") == ColumnValue(m.widthCm)
        && Get(item, "height_cm") == ColumnValue(m.heightCm)
        && Get(item, "length_cm") == ColumnValue(m.lengthCm)
      case None =>
        Get(item, "width_cm") == Get(item, "height_cm") == Get(item, "length_cm") == Null
  {
  }

  /** Which of the three shapes the group's first row has. */
  predicate IsNestedShape(first: Value)
  {
    Get(first, "line_items").Arr?
  }

  predicate IsFlatShape(first: Value)
  {
    !IsNestedShape(first) && Truthy(Get(first, "line_item_name"))
  }

  /** The loop body of `enrichOrders` for one group: an order, no order (a
      group of neither shape), or a thrown TypeError (a null nested item). */
  function NormalizeGroup(rows: seq<Value>, catalog: seq<Motorcycle>): (r: Completion<Option<Value>>)
    requires |rows| > 0
    ensures r == Normal(None) <==> !IsNestedShape(rows[0]) && !IsFlatShape(rows[0])
    ensures r.TypeError? <==> IsNestedShape(rows[0]) && !NoNullish(Get(rows[0], "line_items").items)
    ensures IsFlatShape(rows[0]) ==> r == Normal(Some(FlatOrder(rows, catalog)))
    ensures IsNestedShape(rows[0]) && r.Normal? ==>
      && rows[0].Obj?
      && r.value.Some? && r.value.value.Obj?
      && r.value.value.fields.Keys == rows[0].fields.Keys
      && (forall k :: k in rows[0].fields && k != "line_items" ==> r.value.value.fields[k] == rows[0].fields[k])
      && EnrichItems(rows[0].fields["line_items"].items, catalog).Normal?
      && r.value.value.fields["line_items"] == Arr(EnrichItems(rows[0].fields["line_items"].items, catalog).value)
  {
    var first := rows[0];
    var lineItems := Get(first, "line_items");
    if lineItems.Arr? then
      EnrichItemsElementwise(lineItems.items, catalog);
      match EnrichItems(lineItems.items, catalog)
      case TypeError => TypeError
      case Normal(enriched) => Normal(Some(Obj(first.fields["line_items" := Arr(enriched)])))
    else if Truthy(Get(first, "line_item_name")) then
      Normal(Some(FlatOrder(rows, catalog)))
    else
      Normal(None)
  }

  /** In the JSON shape only the first row counts; later rows of the group
      are ignored. */
  lemma NestedIgnoresLaterRows(rows: seq<Value>, catalog: seq<Motorcycle>)
    requires |rows| > 0 && IsNestedShape(rows[0])
    ensures NormalizeGroup(rows, catalog) == NormalizeGroup([rows[0]], catalog)
  {
  }

  // ---------------------------------------------------------------------
  // Re-resolving a resolved order changes nothing

  lemma EnrichItemIdempotent(li: Value, catalog: seq<Motorcycle>)
    requires !Nullish(li)
    ensures EnrichItem(EnrichItem(li, catalog).value, catalog) == EnrichItem(li, catalog)
  {
    var name := Get(li, "name");
    if Truthy(name) && FindMotorcycle(catalog, name).Some? {
      var m := FindMotorcycle(catalog, name).value;
      var once := Overlay(li.fields, m);
      assert Get(Obj(once), "name") == name;
      assert Overlay(once, m) == once;
    }
  }

  lemma {:induction false} EnrichItemsIdempotent(items: seq<Value>, catalog: seq<Motorcycle>)
    requires NoNullish(items)
    ensures EnrichItems(items, catalog).Normal?
    ensures EnrichItems(EnrichItems(items, catalog).value, catalog) == EnrichItems(items, catalog)
    decreases |items|
  {
    if items != [] {
      var n := |items| - 1;
      assert NoNullish(items[..n]) by {
        forall i | 0 <= i < n ensures !Nullish(items[..n][i]) {
          assert items[..n][i] == items[i];
        }
      }
      EnrichItemsIdempotent(items[..n], catalog);
      EnrichItemIdempotent(items[n], catalog);
      EnrichItemsElementwise(items, catalog);
      EnrichItemsElementwise(items[..n], catalog);
      var once := EnrichItems(items, catalog).value;
      assert once[..n] == EnrichItems(items[..n], catalog).value;
      assert NoNullish(once) by {
        forall i | 0 <= i < |once| ensures !Nullish(once[i]) {
          assert EnrichItem(items[i], catalog) == Normal(once[i]);
          if i < n {
            assert items[..n][i] == items[i];
          }
          if Nullish(once[i]) {
            EnrichItemIdempotent(items[i], catalog);
          }
        }
      }
    }
  }

  /** A spreadsheet item is already resolved. */
  lemma FlatItemResolved(row: Value, catalog: seq<Motorcycle>)
    ensures EnrichItem(FlatItem(row, catalog), catalog) == Normal(FlatItem(row, catalog))
  {
    var item := FlatItem(row, catalog);
    assert Get(item, "name") == Get(row, "line_item_name");
    var name := Get(row, "line_item_name");
    if Truthy(name) && FindMotorcycle(catalog, name).Some? {
      var m := FindMotorcycle(catalog, name).value;
      assert Overlay(item.fields, m) == item.fields;
    }
  }

  /** Dimension resolution is idempotent: an order the pipeline produced,
      fed back in as a group of its own, comes out unchanged. */
  lemma NormalizeIdempotent(rows: seq<Value>, catalog: seq<Motorcycle>)
    requires |rows| > 0
    requires NormalizeGroup(rows, catalog).Normal? && NormalizeGroup(rows, catalog).value.Some?
    ensures NormalizeGroup([NormalizeGroup(rows, catalog).value.value], catalog) == NormalizeGroup(rows, catalog)
  {
    var o := NormalizeGroup(rows, catalog).value.value;
    if IsNestedShape(rows[0]) {
      var items := rows[0].fields["line_items"].items;
      EnrichItemsIdempotent(items, catalog);
      assert Get(o, "line_items") == Arr(EnrichItems(items, catalog).value);
      assert o.fields["line_items" := Arr(EnrichItems(items, catalog).value)] == o.fields;
    } else {
      FlatOrderItems(rows, catalog);
      var items := o.fields["line_items"].items;
      forall i | 0 <= i < |items| ensures EnrichItem(items[i], catalog) == Normal(items[i]) {
        FlatItemResolved(rows[i], catalog);
      }
      assert NoNullish(items);
      EnrichItemsAllResolved(items, catalog);
      assert o.fields["line_items" := Arr(items)] == o.fields;
    }
  }

  lemma {:induction false} EnrichItemsAllResolved(items: seq<Value>, catalog: seq<Motorcycle>)
    requires forall i :: 0 <= i < |items| ==> EnrichItem(items[i], catalog) == Normal(items[i])
    ensures EnrichItems(items, catalog) == Normal(items)
    decreases |items|
  {
    if items != [] {
      var n := |items| - 1;
      EnrichItemsAllResolved(items[..n], catalog);
      assert items == items[..n] + [items[n]];
    }
  }
}
