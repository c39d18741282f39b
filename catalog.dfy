/** The reference data read from the store (the `motorcycles` and `trucks`
    tables), and the name lookup `getMotorcycleByName` that dimensions line
    items (my-app/src/DeliveryOptimizer.jsx). */
module Catalog {
  import opened JsValues

  /** A row of the `motorcycles` table; dimensions are centimetres and
      `None` is a NULL column. */
  datatype Motorcycle = Motorcycle(
    id: Value,
    name: string,
    lengthCm: Option<Number>,
    widthCm: Option<Number>,
    heightCm: Option<Number>,
    notes: Option<string>)

  /** A row of the `trucks` table; dimensions are metres, the usable share a
      percentage. */
  datatype Truck = Truck(
    id: Value,
    name: string,
    lengthM: Option<Number>,
    widthM: Option<Number>,
    heightM: Option<Number>,
    usablePercentage: Option<Number>)

  /** `usable_volume_percentage || 85`: a null or zero percentage stands for
      85 %. */
  function EffectivePercentage(pct: Option<Number>): Number
  {
    if pct.None? || pct.value.mantissa == 0 then Decimal(85, 0) else pct.value
  }

  /** Null and 0 are the falsy percentages and give 85; any other number is
      kept; either way the percentage used is never 0. */
  lemma EffectivePercentageDefault(pct: Option<Number>)
    ensures pct.None? || NumberReal(pct.value) == 0.0 ==> EffectivePercentage(pct) == Decimal(85, 0)
    ensures pct.Some? && NumberReal(pct.value) != 0.0 ==> EffectivePercentage(pct) == pct.value
    ensures NumberReal(EffectivePercentage(pct)) != 0.0
  {
    if pct.Some? && pct.value.mantissa != 0 {
      NumberRealNonZero(pct.value);
    }
    assert NumberReal(Decimal(85, 0)) == 85.0;
  }

  /** A nullable numeric column as the JavaScript value the client sees. */
  function ColumnValue(d: Option<Number>): Value
  {
    match d
    case Some(n) => Num(n)
    case None => Null
  }

  /** The lookup rule: equal once both sides are lower-cased, no fuzziness. */
  predicate NameMatches(m: Motorcycle, key: string)
  {
    Lower(m.name) == key
  }

  /** `catalog[i]` is the first entry whose lower-cased name is `key`. */
  predicate IsFirstMatch(catalog: seq<Motorcycle>, i: nat, key: string)
  {
    && i < |catalog|
    && NameMatches(catalog[i], key)
    && (forall j :: 0 <= j < i ==> !NameMatches(catalog[j], key))
  }

  /** The position of the first catalog entry whose lower-cased name is `key`
      (`Array.prototype.find` scans from the front). */
  function FirstMatch(catalog: seq<Motorcycle>, key: string): (r: Option<nat>)
    ensures r.Some? ==> r.value < |catalog| && NameMatches(catalog[r.value], key)
    ensures r.Some? ==> forall j :: 0 <= j < r.value ==> !NameMatches(catalog[j], key)
    ensures r.None? ==> forall j :: 0 <= j < |catalog| ==> !NameMatches(catalog[j], key)
    decreases |catalog|
  {
    if catalog == [] then None
    else if NameMatches(catalog[0], key) then Some(0)
    else
      match FirstMatch(catalog[1..], key)
      case Some(i) => Some(i + 1)
      case None => None
  }

  /** `getMotorcycleByName(name)`: nothing for a falsy name; otherwise the
      first motorcycle whose name equals `String(name)` ignoring case. */
  function FindMotorcycle(catalog: seq<Motorcycle>, name: Value): (r: Option<Motorcycle>)
    ensures !Truthy(name) ==> r == None
    ensures r.None? && Truthy(name) ==>
      forall j :: 0 <= j < |catalog| ==> !NameMatches(catalog[j], Lower(ToJsString(name)))
    ensures r.Some? ==> Truthy(name)
    ensures r.Some? ==> exists i: nat :: IsFirstMatch(catalog, i, Lower(ToJsString(name))) && catalog[i] == r.value
  {
    if !Truthy(name) then None
    else
      match FirstMatch(catalog, Lower(ToJsString(name)))
      case Some(i) => Some(catalog[i])
      case None => None
  }

  /** The lookup only sees the lower-cased text of the name. */
  lemma FindIgnoresCase(catalog: seq<Motorcycle>, a: string, b: string)
    requires a != "" && b != ""
    requires Lower(a) == Lower(b)
    ensures FindMotorcycle(catalog, Str(a)) == FindMotorcycle(catalog, Str(b))
  {
  }

  /** A line item named "trk 502x" finds the catalog entry "TRK 502X". */
  lemma LowerCaseQueryFindsUpperCaseEntry(m: Motorcycle)
    requires m.name == "TRK 502X"
    ensures FindMotorcycle([m], Str("trk 502x")) == Some(m)
  {
    assert Lower("TRK 502X") == "trk 502x";
    assert Lower("trk 502x") == "trk 502x";
  }

  /** With two entries equal up to case, the first one listed wins. */
  lemma FirstOfCaseTwinsWins(m1: Motorcycle, m2: Motorcycle)
    requires m1.name == "Trk 251" && m2.name == "TRK 251"
    ensures FindMotorcycle([m1, m2], Str("trk 251")) == Some(m1)
  {
    assert Lower("Trk 251") == "trk 251";
    assert Lower("trk 251") == "trk 251";
  }
}
