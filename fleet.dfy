/** The truck side of `handleOptimize` (my-app/src/DeliveryOptimizer.jsx):
    the multi-select toggle and the fleet descriptor sent with the orders. */
module Fleet {
  import opened JsValues
  import opened Sequences
  import opened Catalog

  /** `toggleTruckSelection(id)`: a selected id is removed (every copy of it),
      an unselected one is appended. */
  function Toggle(ids: seq<Value>, id: Value): seq<Value>
  {
    if id in ids then Filter(ids, (x: Value) => x != id) else ids + [id]
  }

  /** The toggled id flips its membership; every other id keeps its own. */
  lemma ToggleMembership(ids: seq<Value>, id: Value, x: Value)
    ensures x == id ==> (x in Toggle(ids, id) <==> id !in ids)
    ensures x != id ==> (x in Toggle(ids, id) <==> x in ids)
  {
    if id in ids {
      FilterMembership(ids, (y: Value) => y != id, x);
    }
  }

  /** Toggling an unselected id twice gives the selection back. */
  lemma ToggleTwiceRestores(ids: seq<Value>, id: Value)
    requires id !in ids
    ensures Toggle(Toggle(ids, id), id) == ids
  {
    var p := (x: Value) => x != id;
    FilterAppend(ids, [id], p);
    assert Filter([id], p) == Filter([], p);
    FilterKeepsAll(ids, p);
  }

  lemma {:induction false} FilterKeepsNoDuplicates<T>(s: seq<T>, p: T -> bool)
    requires NoDuplicates(s)
    ensures NoDuplicates(Filter(s, p))
    decreases |s|
  {
    if s != [] {
      var n := |s| - 1;
      assert NoDuplicates(s[..n]);
      FilterKeepsNoDuplicates(s[..n], p);
      FilterMembership(s[..n], p, s[n]);
    }
  }

  /** A selection without duplicates stays without duplicates. */
  lemma ToggleKeepsNoDuplicates(ids: seq<Value>, id: Value)
    requires NoDuplicates(ids)
    ensures NoDuplicates(Toggle(ids, id))
  {
    if id in ids {
      FilterKeepsNoDuplicates(ids, (x: Value) => x != id);
    }
  }

  /** A selected id toggled twice moves to the end of the selection. */
  lemma ToggleTwiceMovesToEnd(a: Value, b: Value)
    requires a != b
    ensures Toggle(Toggle([a, b], a), a) == [b, a]
  {
    var p := (x: Value) => x != a;
    assert [a, b][..1] == [a];
    assert [a][..0] == [];
    assert Filter([a], p) == [];
    assert Filter([a, b], p) == [b];
    assert a !in [b];
  }

  /** One element of `fleetPayload`. */
  datatype FleetEntry = FleetEntry(
    truckId: Value,
    truckName: string,
    length: Float,
    width: Float,
    height: Float,
    totalVolume: Float,
    usableVolume: Float,
    maxVolume: Float)

  /** `(t.usable_volume_percentage || 85) / 100`: a null or zero percentage
      is replaced by 85. */
  function UsableFraction(pct: Option<Number>): real
  {
    NumberReal(EffectivePercentage(pct)) / 100.0
  }

  /** The `fleetPayload` element of a truck with the given id, name, parsed
      dimensions and usable fraction. */
  function Describe(id: Value, name: string, length: Float, width: Float, height: Float, fraction: real): FleetEntry
  {
    var total := Times(Times(length, width), height);
    var usable := Times(total, Real(fraction));
    FleetEntry(id, name, length, width, height, total, usable, usable)
  }

  function FleetEntryOf(t: Truck): FleetEntry
  {
    Describe(t.id, t.name, ColumnFloat(t.lengthM), ColumnFloat(t.widthM), ColumnFloat(t.heightM),
             UsableFraction(t.usablePercentage))
  }

  /** The volumes of one entry: l·w·h, that times the usable fraction, and a
      maximum equal to the usable volume; NaN as soon as a dimension is NaN. */
  lemma DescribeVolumes(id: Value, name: string, length: Float, width: Float, height: Float, fraction: real)
    ensures var e := Describe(id, name, length, width, height, fraction);
      && e.truckId == id && e.truckName == name
      && e.length == length && e.width == width && e.height == height
      && (length.Real? && width.Real? && height.Real? <==> e.totalVolume.Real?)
      && (e.totalVolume.Real? ==>
            e.totalVolume.value == length.value * width.value * height.value
            && e.usableVolume == Real(e.totalVolume.value * fraction))
      && (e.totalVolume.NaN? ==> e.usableVolume.NaN?)
      && e.maxVolume == e.usableVolume
  {
  }

  /** A truck's entry: its own id and name, its parsed dimensions (NaN for a
      null column) and its usable fraction. */
  lemma FleetEntryVolumes(t: Truck)
    ensures FleetEntryOf(t) == Describe(t.id, t.name, ColumnFloat(t.lengthM), ColumnFloat(t.widthM),
                                        ColumnFloat(t.heightM), UsableFraction(t.usablePercentage))
    ensures FleetEntryOf(t).totalVolume.Real? <==> t.lengthM.Some? && t.widthM.Some? && t.heightM.Some?
  {
    DescribeVolumes(t.id, t.name, ColumnFloat(t.lengthM), ColumnFloat(t.widthM), ColumnFloat(t.heightM),
                    UsableFraction(t.usablePercentage));
  }

  /** A missing or zero percentage means 85 %, any other one is used as is. */
  lemma UsableFractionDefault(pct: Option<Number>)
    ensures pct.None? || NumberReal(pct.value) == 0.0 ==> UsableFraction(pct) == 0.85
    ensures pct.Some? && NumberReal(pct.value) != 0.0 ==> UsableFraction(pct) == NumberReal(pct.value) / 100.0
  {
    if pct.Some? && pct.value.mantissa != 0 {
      NumberRealNonZero(pct.value);
    }
  }

  function IsSelected(selected: seq<Value>): Truck -> bool
  {
    (t: Truck) => t.id in selected
  }

  /** `fleetPayload`: the catalog's trucks whose id is selected, in catalog
      order, each described by `FleetEntryOf`. */
  function FleetPayload(trucks: seq<Truck>, selected: seq<Value>): seq<FleetEntry>
  {
    var chosen := Filter(trucks, IsSelected(selected));
    seq(|chosen|, i requires 0 <= i < |chosen| => FleetEntryOf(chosen[i]))
  }

  /** An entry is in the payload exactly when it describes a selected truck
      of the catalog; the entries follow catalog order. */
  lemma FleetPayloadSelects(trucks: seq<Truck>, selected: seq<Value>, t: Truck)
    ensures t in Filter(trucks, IsSelected(selected)) <==> t in trucks && t.id in selected
    ensures IsSubsequence(Filter(trucks, IsSelected(selected)), trucks)
    ensures |FleetPayload(trucks, selected)| == |Filter(trucks, IsSelected(selected))|
    ensures forall i :: 0 <= i < |FleetPayload(trucks, selected)| ==>
      FleetPayload(trucks, selected)[i] == FleetEntryOf(Filter(trucks, IsSelected(selected))[i])
  {
    FilterMembership(trucks, IsSelected(selected), t);
    var _ := FilterIsSubsequence(trucks, IsSelected(selected));
  }

  lemma {:induction false} FilterSameOnElements<T>(s: seq<T>, p: T -> bool, q: T -> bool)
    requires forall i :: 0 <= i < |s| ==> p(s[i]) == q(s[i])
    ensures Filter(s, p) == Filter(s, q)
    decreases |s|
  {
    if s != [] {
      FilterSameOnElements(s[..|s| - 1], p, q);
    }
  }

  /** A selected id that no truck of the catalog has changes nothing. */
  lemma UnknownSelectionIgnored(trucks: seq<Truck>, selected: seq<Value>, id: Value)
    requires forall i :: 0 <= i < |trucks| ==> trucks[i].id != id
    ensures FleetPayload(trucks, selected + [id]) == FleetPayload(trucks, selected)
  {
    FilterSameOnElements(trucks, IsSelected(selected + [id]), IsSelected(selected));
  }

  /** A 7 m × 4 m × 2 m truck with no stored percentage: 56 m³, of which
      47.6 m³ usable. */
  lemma SevenByFourByTwo(id: Value)
    ensures var t := Truck(id, "Camion A", Some(Decimal(7, 0)), Some(Decimal(4, 0)), Some(Decimal(2, 0)), None);
      FleetEntryOf(t).totalVolume == Real(56.0) && FleetEntryOf(t).usableVolume == Real(47.6)
  {
  }
}
