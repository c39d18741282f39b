/** The truck administration page (my-app/src/TruckManager.jsx): the edit
    form, its validation before a truck is written to the store, and the
    volumes shown in the form and in the list. */
module TruckManager {
  import opened JsValues
  import opened Catalog
  import opened Fleet

  /** The `truckForm` state: dimensions are the text of the inputs; the
      percentage starts as the number 85 and becomes text once edited. */
  datatype TruckForm = TruckForm(
    id: Value,
    name: string,
    lengthM: string,
    widthM: string,
    heightM: string,
    usablePct: Value)

  const InitialTruckForm: TruckForm := TruckForm(Null, "", "", "", "", Num(Decimal(85, 0)))

  /** The row written to the `trucks` table. */
  datatype TruckPayload = TruckPayload(name: string, lengthM: Float, widthM: Float, heightM: Float, usablePct: Float)

  /** An insert for a new truck, an update of the row with this id otherwise. */
  datatype StoreRequest = Insert(payload: TruckPayload) | Update(id: Value, payload: TruckPayload)

  const NameRequired: string := "Le nom du camion est obligatoire"
  const DimensionsRequired: string := "Toutes les dimensions sont obligatoires"
  const Created: string := "Camion cr\U{E9}\U{E9} avec succ\U{E8}s"
  const Updated: string := "Camion mis \U{E0} jour avec succ\U{E8}s"

  /** The guards of `upsertTruck` and the payload it builds; `parse` is
      `parseFloat` on text. */
  function ValidateTruck(form: TruckForm, parse: string -> Float): (r: Result<TruckPayload>)
    ensures r == Err(NameRequired) <==> Blank(form.name)
    ensures r == Err(DimensionsRequired) <==>
      !Blank(form.name) && (form.lengthM == "" || form.widthM == "" || form.heightM == "")
    ensures r.Ok? || r == Err(NameRequired) || r == Err(DimensionsRequired)
    ensures r.Ok? ==>
      && r.value.name == Trim(form.name) && r.value.name != ""
      && Includes(form.name, r.value.name)
      && !IsWhiteSpace(r.value.name[0]) && !IsWhiteSpace(r.value.name[|r.value.name| - 1])
    ensures r.Ok? ==>
      && r.value.lengthM == parse(form.lengthM)
      && r.value.widthM == parse(form.widthM)
      && r.value.heightM == parse(form.heightM)
      && r.value.usablePct == ParseFloat(form.usablePct, parse)
  {
    if Trim(form.name) == "" then Err(NameRequired)
    else if form.lengthM == "" || form.widthM == "" || form.heightM == "" then Err(DimensionsRequired)
    else Ok(TruckPayload(Trim(form.name), parse(form.lengthM), parse(form.widthM), parse(form.heightM),
                         ParseFloat(form.usablePct, parse)))
  }

  /** The form `editTruck` fills from a stored truck; `toString` of a null
      dimension throws and the form stays as it was. */
  function EditForm(t: Truck): (r: Completion<TruckForm>)
    ensures r.Normal? <==> t.lengthM.Some? && t.widthM.Some? && t.heightM.Some?
    ensures r.Normal? ==>
      && r.value.id == t.id && r.value.name == t.name
      && r.value.lengthM == NumberText(t.lengthM.value)
      && r.value.widthM == NumberText(t.widthM.value)
      && r.value.heightM == NumberText(t.heightM.value)
      && r.value.usablePct == Str(NumberText(EffectivePercentage(t.usablePercentage)))
  {
    match (ColumnText(t.lengthM), ColumnText(t.widthM), ColumnText(t.heightM))
    case (Normal(l), Normal(w), Normal(h)) =>
      Normal(TruckForm(t.id, t.name, l, w, h, Str(NumberText(EffectivePercentage(t.usablePercentage)))))
    case _ => TypeError
  }

  /** Editing a complete stored truck and saving it straight away writes back
      its own dimensions, its trimmed name and its effective percentage,
      given that `parseFloat` reads a number's text back as that number. */
  lemma EditThenSaveRoundTrip(t: Truck, parse: string -> Float)
    requires t.lengthM.Some? && t.widthM.Some? && t.heightM.Some?
    requires !Blank(t.name)
    requires forall n: Number :: parse(NumberText(n)) == Real(NumberReal(n))
    ensures EditForm(t).Normal?
    ensures ValidateTruck(EditForm(t).value, parse) == Ok(TruckPayload(
      Trim(t.name),
      Real(NumberReal(t.lengthM.value)),
      Real(NumberReal(t.widthM.value)),
      Real(NumberReal(t.heightM.value)),
      Real(NumberReal(EffectivePercentage(t.usablePercentage)))))
  {
    var f := EditForm(t).value;
    assert f.usablePct == Str(NumberText(EffectivePercentage(t.usablePercentage)));
    assert ParseFloat(f.usablePct, parse) == parse(NumberText(EffectivePercentage(t.usablePercentage)));
  }

  /** `parseFloat(x) || 0` for each dimension, multiplied, to the cent. */
  function FormVolume(form: TruckForm, parse: string -> Float): real
  {
    Fixed(ZeroFilledVolume(parse(form.lengthM), parse(form.widthM), parse(form.heightM)), 2)
  }

  /** `calculateUsableVolume`: the displayed total read back, times the
      percentage over 100, to the cent; NaN when the percentage is not a
      number. */
  function FormUsableVolume(form: TruckForm, parse: string -> Float): Float
  {
    UsableShare(FormVolume(form, parse), ParseFloat(form.usablePct, parse))
  }

  /** `(total * (pct / 100)).toFixed(2)` read back. */
  function UsableShare(total: real, pct: Float): Float
  {
    match pct
    case NaN => NaN
    case Real(p) => Real(Fixed(total * (p / 100.0), 2))
  }

  /** A dimension that does not parse makes the volume 0; otherwise the
      volume is l·w·h to within half a cent. */
  lemma FormVolumeMeaning(form: TruckForm, parse: string -> Float)
    ensures parse(form.lengthM).NaN? || parse(form.widthM).NaN? || parse(form.heightM).NaN? ==>
      FormVolume(form, parse) == 0.0
    ensures parse(form.lengthM).Real? && parse(form.widthM).Real? && parse(form.heightM).Real? ==>
      var v := parse(form.lengthM).value * parse(form.widthM).value * parse(form.heightM).value;
      -0.005 <= FormVolume(form, parse) - v <= 0.005
  {
    var l, w, h := parse(form.lengthM), parse(form.widthM), parse(form.heightM);
    if l.NaN? || w.NaN? || h.NaN? {
      ZeroFilledWithNaN(l, w, h);
      FixedOfGridValue(0, 2);
      assert 0 as real / Pow10(2) as real == 0.0;
    } else {
      ZeroFilledOfReals(l, w, h);
      FixedDistance(ZeroFilledVolume(l, w, h), 2);
      assert Pow10(2) == 100;
    }
  }

  /** The usable volume is the shown total times the percentage over 100, to
      within half a cent; NaN exactly when the percentage is not a number. */
  lemma UsableShareClose(total: real, pct: Float)
    ensures UsableShare(total, pct).NaN? <==> pct.NaN?
    ensures pct.Real? ==> -0.005 <= UsableShare(total, pct).value - total * (pct.value / 100.0) <= 0.005
  {
    if pct.Real? {
      FixedDistance(total * (pct.value / 100.0), 2);
      assert Pow10(2) == 100;
    }
  }

  /** l·w·h of a stored truck: `null` multiplies as 0. */
  function StoredVolume(t: Truck): real
  {
    ZeroFilledVolume(ColumnFloat(t.lengthM), ColumnFloat(t.widthM), ColumnFloat(t.heightM))
  }

  /** The list shows l·w·h to the cent ... */
  function ListedTotal(t: Truck): real
  {
    Fixed(StoredVolume(t), 2)
  }

  /** ... and that times `(usable_volume_percentage || 85) / 100`. */
  function ListedUsable(t: Truck): real
  {
    Fixed(StoredVolume(t) * UsableFraction(t.usablePercentage), 2)
  }

  /** The listed total is within half a cent of l·w·h. */
  lemma ListedTotalMeaning(t: Truck)
    ensures -0.005 <= ListedTotal(t) - StoredVolume(t) <= 0.005
  {
    FixedDistance(StoredVolume(t), 2);
    assert Pow10(2) == 100;
  }

  /** Opening a complete truck in the form shows the total the list shows
      for it. */
  lemma EditedVolumeMatchesList(t: Truck, parse: string -> Float)
    requires t.lengthM.Some? && t.widthM.Some? && t.heightM.Some?
    requires forall n: Number :: parse(NumberText(n)) == Real(NumberReal(n))
    ensures EditForm(t).Normal?
    ensures FormVolume(EditForm(t).value, parse) == ListedTotal(t)
  {
    var f := EditForm(t).value;
    assert parse(f.lengthM) == ColumnFloat(t.lengthM);
    assert parse(f.widthM) == ColumnFloat(t.widthM);
    assert parse(f.heightM) == ColumnFloat(t.heightM);
  }

  /** A null column lists as volume 0 where the optimiser's fleet entry has
      NaN ... */
  lemma NullColumnVolumes(t: Truck)
    requires t.lengthM.None? || t.widthM.None? || t.heightM.None?
    ensures StoredVolume(t) == 0.0 && FleetEntryOf(t).totalVolume.NaN?
  {
    FleetEntryVolumes(t);
    ZeroFilledWithNaN(ColumnFloat(t.lengthM), ColumnFloat(t.widthM), ColumnFloat(t.heightM));
  }

  /** ... and a complete truck has the same volume in both. */
  lemma StoredVolumeAgreesWithFleet(t: Truck)
    requires t.lengthM.Some? && t.widthM.Some? && t.heightM.Some?
    ensures FleetEntryOf(t).totalVolume == Real(StoredVolume(t))
  {
    var l, w, h := ColumnFloat(t.lengthM), ColumnFloat(t.widthM), ColumnFloat(t.heightM);
    assert l.Real? && w.Real? && h.Real?;
    assert FleetEntryOf(t).totalVolume == Times(Times(l, w), h) by {
      assert FleetEntryOf(t) == Describe(t.id, t.name, l, w, h, UsableFraction(t.usablePercentage));
    }
    ZeroFilledOfReals(l, w, h);
  }

  /** A truck without a stored percentage, or with 0, is listed at 85 %, and
      its usable volume is within half a cent of 85 % of its volume. */
  lemma ListedUsableDefault(t: Truck)
    requires t.usablePercentage.None? || t.usablePercentage.value.mantissa == 0
    ensures EffectivePercentage(t.usablePercentage) == Decimal(85, 0)
    ensures -0.005 <= ListedUsable(t) - StoredVolume(t) * 0.85 <= 0.005
  {
    assert NumberReal(Decimal(85, 0)) == 85.0;
    assert UsableFraction(t.usablePercentage) == 0.85;
    FixedDistance(StoredVolume(t) * 0.85, 2);
    assert Pow10(2) == 100;
  }

  /** The page's state that these handlers touch. */
  class TruckPage {
    var trucks: seq<Truck>
    var form: TruckForm
    var error: Option<string>
    var success: Option<string>

    constructor()
      ensures trucks == [] && form == InitialTruckForm && error == None && success == None
    {
      trucks := [];
      form := InitialTruckForm;
      error := None;
      success := None;
    }

    /** `fetchTrucks` answering: the store's error is shown, or the rows
        (none for a null answer) replace the list. */
    method Fetched(data: Option<seq<Truck>>, storeError: Option<string>)
      modifies this
      ensures storeError.Some? ==> error == storeError && trucks == old(trucks)
      ensures storeError.None? ==> error == old(error) && trucks == (if data.Some? then data.value else [])
      ensures form == old(form) && success == old(success)
    {
      if storeError.Some? {
        error := storeError;
      } else {
        trucks := if data.Some? then data.value else [];
      }
    }

    /** `resetForm`: the initial form, and no error. */
    method ResetForm()
      modifies this
      ensures form == InitialTruckForm && error == None
      ensures trucks == old(trucks) && success == old(success)
    {
      form := InitialTruckForm;
      error := None;
    }

    /** `editTruck`: the form shows the stored truck. */
    method EditTruck(t: Truck) returns (r: Completion<TruckForm>)
      modifies this
      ensures r == EditForm(t)
      ensures r.Normal? ==> form == r.value
      ensures r.TypeError? ==> form == old(form)
      ensures trucks == old(trucks) && error == old(error) && success == old(success)
    {
      r := EditForm(t);
      if r.Normal? {
        form := r.value;
      }
    }

    /** `upsertTruck`: a rejected form only sets the error; an accepted one
        is sent as an update when the form has an id and as an insert
        otherwise. `storeError` is the store's answer. On success the form is
        reset and the message depends on the form as it was submitted. */
    method UpsertTruck(parse: string -> Float, storeError: Option<string>) returns (request: Option<StoreRequest>)
      modifies this
      ensures ValidateTruck(old(form), parse).Err? ==>
        && request == None
        && error == Some(ValidateTruck(old(form), parse).message)
        && form == old(form) && success == old(success)
      ensures ValidateTruck(old(form), parse).Ok? ==>
        && request == Some(if Truthy(old(form).id) then Update(old(form).id, ValidateTruck(old(form), parse).value)
                           else Insert(ValidateTruck(old(form), parse).value))
      ensures ValidateTruck(old(form), parse).Ok? && storeError.Some? ==>
        error == storeError && form == old(form) && success == None
      ensures ValidateTruck(old(form), parse).Ok? && storeError.None? ==>
        && form == InitialTruckForm && error == None
        && success == Some(if Truthy(old(form).id) then Updated else Created)
      ensures trucks == old(trucks)
    {
      var submitted := form;
      var checked := ValidateTruck(submitted, parse);
      if checked.Err? {
        error := Some(checked.message);
        return None;
      }
      error := None;
      success := None;
      if Truthy(submitted.id) {
        request := Some(Update(submitted.id, checked.value));
      } else {
        request := Some(Insert(checked.value));
      }
      if storeError.Some? {
        error := storeError;
      } else {
        ResetForm();
        success := Some(if Truthy(submitted.id) then Updated else Created);
      }
    }
  }
}
