/** The motorcycle administration page (my-app/src/MotorcycleManager.jsx):
    the search box over the catalog, the edit form, its validation before a
    motorcycle is written to the store, and the volumes it shows. */
module MotorcycleManager {
  import opened JsValues
  import opened Sequences
  import opened Catalog

  /** The search predicate: the lower-cased name contains the lower-cased
      term, spaces around the term included. */
  function NameContains(term: string): Motorcycle -> bool
  {
    (m: Motorcycle) => Includes(Lower(m.name), Lower(term))
  }

  /** What the search effect stores in `filteredMotorcycles`: the whole list
      for a term that is blank after trimming, the matching motorcycles in
      list order otherwise. */
  function SearchResults(motorcycles: seq<Motorcycle>, term: string): seq<Motorcycle>
  {
    if Blank(term) then motorcycles else Filter(motorcycles, NameContains(term))
  }

  /** A motorcycle is shown exactly when it is in the list and the term is
      blank or its name contains the term, ignoring case; the shown ones keep
      the list order. */
  lemma SearchMembership(motorcycles: seq<Motorcycle>, term: string, m: Motorcycle)
    ensures m in SearchResults(motorcycles, term) <==>
      m in motorcycles && (Blank(term) || Includes(Lower(m.name), Lower(term)))
    ensures IsSubsequence(SearchResults(motorcycles, term), motorcycles)
    ensures |SearchResults(motorcycles, term)| <= |motorcycles|
  {
    if Blank(term) {
      var idx := seq(|motorcycles|, i requires 0 <= i < |motorcycles| => i as nat);
      assert Embeds(idx, motorcycles, motorcycles);
    } else {
      FilterMembership(motorcycles, NameContains(term), m);
      var _ := FilterIsSubsequence(motorcycles, NameContains(term));
    }
  }

  lemma LowerKeepsBlank(s: string)
    ensures Blank(Lower(s)) <==> Blank(s)
  {
    if !Blank(s) {
      var i :| 0 <= i < |s| && !IsWhiteSpace(s[i]);
      assert !IsWhiteSpace(Lower(s)[i]);
    }
  }

  /** Typing the term in upper or lower case shows the same motorcycles. */
  lemma SearchIgnoresCase(motorcycles: seq<Motorcycle>, term: string)
    ensures SearchResults(motorcycles, Lower(term)) == SearchResults(motorcycles, term)
  {
    LowerKeepsBlank(term);
    LowerIdempotent(term);
    assert NameContains(Lower(term)) == NameContains(term);
  }

  const Trk251: Motorcycle := Motorcycle(Num(Decimal(1, 0)), "TRK 251", None, None, None, None)

  lemma LowerOfExample()
    ensures Lower("TRK 251") == "trk 251" && Lower("trk") == "trk" && Lower(" trk") == " trk"
  {
    assert Lower("TRK 251") == "trk 251";
  }

  lemma ExampleOccurrences()
    ensures Includes("trk 251", "trk")
    ensures !Includes("trk 251", " trk")
  {
    var name := "trk 251";
    assert OccursAt(name, "trk", 0);
    forall i | 0 <= i <= |name| - 4
      ensures !OccursAt(name, " trk", i)
    {
      assert name[i..i + 4][0] == name[i];
      assert name[i..i + 4][1] == name[i + 1];
    }
  }

  /** The term is not trimmed before matching: " trk" finds nothing in a list
      holding "TRK 251", which "trk" finds. */
  lemma UntrimmedTermMisses()
    ensures SearchResults([Trk251], "trk") == [Trk251]
    ensures SearchResults([Trk251], " trk") == []
  {
    LowerOfExample();
    ExampleOccurrences();
    assert "trk"[0] == 't' && !Blank("trk");
    assert " trk"[1] == 't' && !Blank(" trk");
    assert [Trk251][..0] == [];
  }

  /** The `motoForm` state: dimensions are the text of the inputs. */
  datatype MotoForm = MotoForm(
    id: Value,
    name: string,
    lengthCm: string,
    widthCm: string,
    heightCm: string,
    notes: string)

  const InitialMotoForm: MotoForm := MotoForm(Null, "", "", "", "", "")

  /** The row written to the `motorcycles` table. */
  datatype MotoPayload = MotoPayload(name: string, lengthCm: Float, widthCm: Float, heightCm: Float, notes: Option<string>)

  /** An insert for a new motorcycle, an update of the row with this id
      otherwise. */
  datatype StoreRequest = Insert(payload: MotoPayload) | Update(id: Value, payload: MotoPayload)

  const NameRequired: string := "Le nom du mod\U{E8}le est obligatoire"
  const DimensionsRequired: string := "Toutes les dimensions sont obligatoires"
  const Created: string := "Moto cr\U{E9}\U{E9}e avec succ\U{E8}s"
  const Updated: string := "Moto mise \U{E0} jour avec succ\U{E8}s"

  /** `notes?.trim() || null`. */
  function NotesColumn(notes: string): Option<string>
  {
    var trimmed := Trim(notes);
    if trimmed == "" then None else Some(trimmed)
  }

  /** The guards of `upsertMotorcycle` and the payload it builds; `parse` is
      `parseFloat` on text. */
  function ValidateMotorcycle(form: MotoForm, parse: string -> Float): (r: Result<MotoPayload>)
    ensures r == Err(NameRequired) <==> Blank(form.name)
    ensures r == Err(DimensionsRequired) <==>
      !Blank(form.name) && (form.lengthCm == "" || form.widthCm == "" || form.heightCm == "")
    ensures r.Ok? || r == Err(NameRequired) || r == Err(DimensionsRequired)
    ensures r.Ok? ==>
      && r.value.name == Trim(form.name) && r.value.name != ""
      && !IsWhiteSpace(r.value.name[0]) && !IsWhiteSpace(r.value.name[|r.value.name| - 1])
    ensures r.Ok? ==>
      && r.value.lengthCm == parse(form.lengthCm)
      && r.value.widthCm == parse(form.widthCm)
      && r.value.heightCm == parse(form.heightCm)
    ensures r.Ok? ==>
      && (r.value.notes.None? <==> Blank(form.notes))
      && (r.value.notes.Some? ==> r.value.notes.value == Trim(form.notes) && Includes(form.notes, r.value.notes.value))
  {
    if Trim(form.name) == "" then Err(NameRequired)
    else if form.lengthCm == "" || form.widthCm == "" || form.heightCm == "" then Err(DimensionsRequired)
    else Ok(MotoPayload(Trim(form.name), parse(form.lengthCm), parse(form.widthCm), parse(form.heightCm),
                        NotesColumn(form.notes)))
  }

  /** The form `editMotorcycle` fills from a stored motorcycle; `toString` of
      a null dimension throws and the form stays as it was. */
  function EditForm(m: Motorcycle): (r: Completion<MotoForm>)
    ensures r.Normal? <==> m.lengthCm.Some? && m.widthCm.Some? && m.heightCm.Some?
    ensures r.Normal? ==>
      && r.value.id == m.id && r.value.name == m.name
      && r.value.lengthCm == NumberText(m.lengthCm.value)
      && r.value.widthCm == NumberText(m.widthCm.value)
      && r.value.heightCm == NumberText(m.heightCm.value)
      && r.value.notes == (if m.notes.Some? then m.notes.value else "")
  {
    match (ColumnText(m.lengthCm), ColumnText(m.widthCm), ColumnText(m.heightCm))
    case (Normal(l), Normal(w), Normal(h)) =>
      Normal(MotoForm(m.id, m.name, l, w, h, if m.notes.Some? then m.notes.value else ""))
    case _ => TypeError
  }

  /** Editing a complete stored motorcycle and saving it straight away
      writes back its own dimensions, its trimmed name and its trimmed notes
      (none when they are blank), given that `parseFloat` reads a number's
      text back as that number. */
  lemma EditThenSaveRoundTrip(m: Motorcycle, parse: string -> Float)
    requires m.lengthCm.Some? && m.widthCm.Some? && m.heightCm.Some?
    requires !Blank(m.name)
    requires forall n: Number :: parse(NumberText(n)) == Real(NumberReal(n))
    ensures EditForm(m).Normal?
    ensures ValidateMotorcycle(EditForm(m).value, parse) == Ok(MotoPayload(
      Trim(m.name),
      Real(NumberReal(m.lengthCm.value)),
      Real(NumberReal(m.widthCm.value)),
      Real(NumberReal(m.heightCm.value)),
      if m.notes.Some? then NotesColumn(m.notes.value) else None))
  {
    var f := EditForm(m).value;
    assert NumberText(m.lengthCm.value) != "";
    if m.notes.None? {
      assert Trim("") == "";
    }
  }

  /** `calculateVolume`: `parseFloat(x) || 0` for each dimension in
      centimetres, multiplied, in cubic metres to four places. */
  function FormVolume(form: MotoForm, parse: string -> Float): real
  {
    Fixed(ZeroFilledVolume(parse(form.lengthCm), parse(form.widthCm), parse(form.heightCm)) / 1000000.0, 4)
  }

  /** A dimension that does not parse makes the volume 0; otherwise the
      volume is l·w·h / 10^6 to within half a unit of the fourth place. */
  lemma FormVolumeMeaning(form: MotoForm, parse: string -> Float)
    ensures parse(form.lengthCm).NaN? || parse(form.widthCm).NaN? || parse(form.heightCm).NaN? ==>
      FormVolume(form, parse) == 0.0
    ensures parse(form.lengthCm).Real? && parse(form.widthCm).Real? && parse(form.heightCm).Real? ==>
      var v := parse(form.lengthCm).value * parse(form.widthCm).value * parse(form.heightCm).value / 1000000.0;
      -0.00005 <= FormVolume(form, parse) - v <= 0.00005
  {
    var l, w, h := parse(form.lengthCm), parse(form.widthCm), parse(form.heightCm);
    if l.NaN? || w.NaN? || h.NaN? {
      ZeroFilledWithNaN(l, w, h);
      assert ZeroFilledVolume(l, w, h) / 1000000.0 == 0 as real / Pow10(4) as real;
      FixedOfGridValue(0, 4);
    } else {
      ZeroFilledOfReals(l, w, h);
      FixedDistance(ZeroFilledVolume(l, w, h) / 1000000.0, 4);
      assert Pow10(4) == 10000;
    }
  }

  /** The volume the list shows: the stored dimensions multiplied (`null`
      multiplies as 0), over 10^6, to four places. */
  function ListedVolume(m: Motorcycle): real
  {
    Fixed(ZeroFilledVolume(ColumnFloat(m.lengthCm), ColumnFloat(m.widthCm), ColumnFloat(m.heightCm)) / 1000000.0, 4)
  }

  /** Opening a complete motorcycle in the form shows the volume the list
      shows for it. */
  lemma EditedVolumeMatchesList(m: Motorcycle, parse: string -> Float)
    requires m.lengthCm.Some? && m.widthCm.Some? && m.heightCm.Some?
    requires forall n: Number :: parse(NumberText(n)) == Real(NumberReal(n))
    ensures EditForm(m).Normal?
    ensures FormVolume(EditForm(m).value, parse) == ListedVolume(m)
  {
    var f := EditForm(m).value;
    assert parse(f.lengthCm) == ColumnFloat(m.lengthCm);
    assert parse(f.widthCm) == ColumnFloat(m.widthCm);
    assert parse(f.heightCm) == ColumnFloat(m.heightCm);
  }

  /** The page's state that these handlers touch. */
  class MotorcyclePage {
    var motorcycles: seq<Motorcycle>
    var filtered: seq<Motorcycle>
    var searchTerm: string
    var form: MotoForm
    var error: Option<string>
    var success: Option<string>

    /** The search effect has run for the current list and term. */
    predicate Valid()
      reads this
    {
      filtered == SearchResults(motorcycles, searchTerm)
    }

    constructor()
      ensures Valid()
      ensures motorcycles == [] && filtered == [] && searchTerm == ""
      ensures form == InitialMotoForm && error == None && success == None
    {
      motorcycles := [];
      filtered := [];
      searchTerm := "";
      form := InitialMotoForm;
      error := None;
      success := None;
    }

    /** The effect on `[searchTerm, motorcycles]`. */
    method ApplySearch()
      modifies this
      ensures Valid()
      ensures motorcycles == old(motorcycles) && searchTerm == old(searchTerm)
      ensures form == old(form) && error == old(error) && success == old(success)
    {
      filtered := SearchResults(motorcycles, searchTerm);
    }

    /** Typing in the search box. */
    method SetSearchTerm(term: string)
      modifies this
      ensures Valid()
      ensures searchTerm == term && motorcycles == old(motorcycles)
      ensures filtered == SearchResults(motorcycles, term)
      ensures form == old(form) && error == old(error) && success == old(success)
    {
      searchTerm := term;
      ApplySearch();
    }

    /** `fetchMotorcycles` answering: the store's error is shown, or the rows
        (none for a null answer) replace the list and the search runs again
        over them. */
    method Fetched(data: Option<seq<Motorcycle>>, storeError: Option<string>)
      requires Valid()
      modifies this
      ensures Valid()
      ensures storeError.Some? ==>
        error == storeError && motorcycles == old(motorcycles) && filtered == old(filtered)
      ensures storeError.None? ==>
        && error == old(error)
        && motorcycles == (if data.Some? then data.value else [])
        && filtered == SearchResults(motorcycles, searchTerm)
      ensures searchTerm == old(searchTerm) && form == old(form) && success == old(success)
    {
      if storeError.Some? {
        error := storeError;
        return;
      }
      var rows := if data.Some? then data.value else [];
      motorcycles := rows;
      filtered := rows;
      ApplySearch();
    }

    /** `resetForm`: the initial form, and no error. */
    method ResetForm()
      modifies this
      ensures form == InitialMotoForm && error == None
      ensures motorcycles == old(motorcycles) && filtered == old(filtered) && searchTerm == old(searchTerm)
      ensures success == old(success)
    {
      form := InitialMotoForm;
      error := None;
    }

    /** `editMotorcycle`: the form shows the stored motorcycle. */
    method EditMotorcycle(m: Motorcycle) returns (r: Completion<MotoForm>)
      modifies this
      ensures r == EditForm(m)
      ensures r.Normal? ==> form == r.value
      ensures r.TypeError? ==> form == old(form)
      ensures motorcycles == old(motorcycles) && filtered == old(filtered) && searchTerm == old(searchTerm)
      ensures error == old(error) && success == old(success)
    {
      r := EditForm(m);
      if r.Normal? {
        form := r.value;
      }
    }

    /** `upsertMotorcycle`: a rejected form only sets the error; an accepted
        one is sent as an update when the form has an id and as an insert
        otherwise. `storeError` is the store's answer. On success the form is
        reset and the message depends on the form as it was submitted. */
    method UpsertMotorcycle(parse: string -> Float, storeError: Option<string>) returns (request: Option<StoreRequest>)
      requires Valid()
      modifies this
      ensures Valid()
      ensures ValidateMotorcycle(old(form), parse).Err? ==>
        && request == None
        && error == Some(ValidateMotorcycle(old(form), parse).message)
        && form == old(form) && success == old(success)
      ensures ValidateMotorcycle(old(form), parse).Ok? ==>
        request == Some(if Truthy(old(form).id) then Update(old(form).id, ValidateMotorcycle(old(form), parse).value)
                        else Insert(ValidateMotorcycle(old(form), parse).value))
      ensures ValidateMotorcycle(old(form), parse).Ok? && storeError.Some? ==>
        error == storeError && form == old(form) && success == None
      ensures ValidateMotorcycle(old(form), parse).Ok? && storeError.None? ==>
        && form == InitialMotoForm && error == None
        && success == Some(if Truthy(old(form).id) then Updated else Created)
      ensures motorcycles == old(motorcycles) && filtered == old(filtered) && searchTerm == old(searchTerm)
    {
      var submitted := form;
      var checked := ValidateMotorcycle(submitted, parse);
      if checked.Err? {
        error := Some(checked.message);
        return None;
      }
      error := None;
      success := None;
      if Truthy(submitted.id) {
        request := Some(Update(submitted.id, checked.value));
      } else {
        request := Some(Insert(checked.value));
      }
      if storeError.Some? {
        error := storeError;
      } else {
        ResetForm();
        success := Some(if Truthy(submitted.id) then Updated else Created);
      }
    }
  }
}
