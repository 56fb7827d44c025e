/**
 * The supplement manager of `src/pages/Supplements.jsx`: a list of the
 * supplements the user takes and a list of side effects reported against
 * them, each filled from a form that is reset after every addition.
 */
module Supplements {
  import opened Text

  /** A supplement the user takes; `id` and `createdAt` come from the clock. */
  datatype Supplement = Supplement(
    id: int,
    name: string,
    dosage: string,
    frequency: string,
    startDate: string,
    endDate: string,
    notes: string,
    createdAt: string)

  /**
   * A reported side effect. `supplementId` is the selected option's value
   * as text; `supplementName` is absent when no supplement has that id.
   */
  datatype SideEffect = SideEffect(
    id: int,
    supplementId: string,
    description: string,
    severity: string,
    dateOccurred: string,
    supplementName: Option<string>,
    createdAt: string)

  /** The values of the add-supplement form. */
  datatype SupplementForm = SupplementForm(
    name: string,
    dosage: string,
    frequency: string,
    startDate: string,
    endDate: string,
    notes: string)

  /** The values of the side-effect form. */
  datatype SideEffectForm = SideEffectForm(
    supplementId: string,
    description: string,
    severity: string,
    dateOccurred: string)

  /** The supplement form as first shown and after every addition: "Daily", every other field empty. */
  function EmptySupplementForm(): (f: SupplementForm)
    ensures f.frequency == "Daily"
    ensures f.name == f.dosage == f.startDate == f.endDate == f.notes == ""
  {
    SupplementForm("", "", "Daily", "", "", "")
  }

  /** The side-effect form as first shown and after every report: "Mild", every other field empty. */
  function EmptySideEffectForm(): (f: SideEffectForm)
    ensures f.severity == "Mild"
    ensures f.supplementId == f.description == f.dateOccurred == ""
  {
    SideEffectForm("", "", "Mild", "")
  }

  /** One edited input of the supplement form. */
  datatype SupplementInput =
    | NameInput(name: string)
    | DosageInput(dosage: string)
    | FrequencyInput(frequency: string)
    | StartDateInput(startDate: string)
    | NotesInput(notes: string)

  /** One edited input of the side-effect form. */
  datatype SideEffectInput =
    | SupplementIdInput(supplementId: string)
    | DescriptionInput(description: string)
    | SeverityInput(severity: string)
    | DateOccurredInput(dateOccurred: string)

  /** `handleInputChange`: the named input takes the value, the others stay. */
  function EditSupplement(f: SupplementForm, input: SupplementInput): SupplementForm {
    match input
    case NameInput(v) => f.(name := v)
    case DosageInput(v) => f.(dosage := v)
    case FrequencyInput(v) => f.(frequency := v)
    case StartDateInput(v) => f.(startDate := v)
    case NotesInput(v) => f.(notes := v)
  }

  /** The form has no end-date input, so a supplement is always added with an empty end date. */
  lemma EditKeepsEndDate(f: SupplementForm, input: SupplementInput)
    ensures EditSupplement(f, input).endDate == f.endDate
    ensures EditSupplement(EmptySupplementForm(), input).endDate == ""
  {
  }

  /** `handleSideEffectChange`: the named input takes the value, the others stay. */
  function EditSideEffect(f: SideEffectForm, input: SideEffectInput): SideEffectForm {
    match input
    case SupplementIdInput(v) => f.(supplementId := v)
    case DescriptionInput(v) => f.(description := v)
    case SeverityInput(v) => f.(severity := v)
    case DateOccurredInput(v) => f.(dateOccurred := v)
  }

  /** The record an addition appends: every form field as typed, with the id and time of the addition. */
  function NewSupplement(f: SupplementForm, id: int, createdAt: string): (s: Supplement)
    ensures s.id == id && s.createdAt == createdAt
    ensures SupplementForm(s.name, s.dosage, s.frequency, s.startDate, s.endDate, s.notes) == f
  {
    Supplement(id, f.name, f.dosage, f.frequency, f.startDate, f.endDate, f.notes, createdAt)
  }

  // ---------------------------------------------------------------------------
  // Finding the selected supplement
  // ---------------------------------------------------------------------------

  /**
   * The lookup of the selected supplement: the first supplement
   * with that id; a value `parseInt` reads as no number (NaN) equals no id.
   */
  function FindById(supplements: seq<Supplement>, id: Option<int>): (found: Option<Supplement>)
    ensures found.Some? ==> found.value in supplements && id == Some(found.value.id)
  {
    if supplements == [] || id.None? then None
    else if supplements[0].id == id.value then Some(supplements[0])
    else FindById(supplements[1..], id)
  }

  /**
   * The lookup finds a supplement exactly when one has the id, and then it
   * finds the first: every supplement before it has another id.
   */
  lemma {:induction false} FindByIdSpec(supplements: seq<Supplement>, id: Option<int>)
    ensures FindById(supplements, id).None?
        <==> id.None? || forall k | 0 <= k < |supplements| :: supplements[k].id != id.value
    ensures FindById(supplements, id).Some? ==>
      exists k | 0 <= k < |supplements| ::
        && supplements[k] == FindById(supplements, id).value
        && supplements[k].id == id.value
        && forall j | 0 <= j < k :: supplements[j].id != id.value
  {
    if supplements != [] && id.Some? && supplements[0].id != id.value {
      var rest := supplements[1..];
      FindByIdSpec(rest, id);
      if FindById(rest, id).Some? {
        var k :| 0 <= k < |rest| && rest[k] == FindById(rest, id).value && rest[k].id == id.value
          && forall j | 0 <= j < k :: rest[j].id != id.value;
        assert supplements[k + 1] == rest[k];
        forall j | 0 <= j < k + 1 ensures supplements[j].id != id.value {
          if j > 0 { assert supplements[j] == rest[j - 1]; }
        }
      } else {
        forall k | 0 <= k < |supplements| ensures supplements[k].id != id.value {
          if k > 0 { assert supplements[k] == rest[k - 1]; }
        }
      }
    } else if supplements != [] && id.Some? {
      assert supplements[0] == FindById(supplements, id).value;
    }
  }

  /** Ids are unique in the list. */
  predicate DistinctIds(supplements: seq<Supplement>) {
    forall i, j | 0 <= i < j < |supplements| :: supplements[i].id != supplements[j].id
  }

  /**
   * Choosing a supplement's option, whose value is its id written out,
   * finds that supplement again, provided no earlier one shares its id.
   */
  lemma SelectFindsSupplement(supplements: seq<Supplement>, k: int)
    requires 0 <= k < |supplements| && DistinctIds(supplements)
    ensures FindById(supplements, ParseInt(IntToString(supplements[k].id))) == Some(supplements[k])
  {
    var id := Some(supplements[k].id);
    ParseIntOfInt(supplements[k].id);
    FindByIdSpec(supplements, id);
    var j :| 0 <= j < |supplements| && supplements[j] == FindById(supplements, id).value
      && supplements[j].id == id.value && forall i | 0 <= i < j :: supplements[i].id != id.value;
    assert j == k;
  }

  /** The empty "Select supplement..." option finds nothing, so the report has no supplement name. */
  lemma NoSelectionNoName(supplements: seq<Supplement>)
    ensures FindById(supplements, ParseInt("")) == None
  {
  }

  /** The name a new side effect records: the selected supplement's, if one was found. */
  function SupplementName(supplements: seq<Supplement>, supplementId: string): Option<string> {
    match FindById(supplements, ParseInt(supplementId))
    case None => None
    case Some(s) => Some(s.name)
  }

  /** The record a report appends: the form as typed, the found name, the id and time of the report. */
  function NewSideEffect(supplements: seq<Supplement>, f: SideEffectForm, id: int, createdAt: string): (e: SideEffect)
    ensures e.id == id && e.createdAt == createdAt
    ensures SideEffectForm(e.supplementId, e.description, e.severity, e.dateOccurred) == f
    ensures e.supplementName.Some? <==> FindById(supplements, ParseInt(f.supplementId)).Some?
    ensures e.supplementName.Some? ==> e.supplementName.value == FindById(supplements, ParseInt(f.supplementId)).value.name
  {
    SideEffect(id, f.supplementId, f.description, f.severity, f.dateOccurred,
      SupplementName(supplements, f.supplementId), createdAt)
  }

  /** The "Report Side Effect" button is enabled only once some supplement exists. */
  predicate CanReport(supplements: seq<Supplement>) {
    |supplements| != 0
  }

  // ---------------------------------------------------------------------------
  // The page state
  // ---------------------------------------------------------------------------

  /** The state of the supplement page. */
  class Page {
    var supplements: seq<Supplement>
    var sideEffects: seq<SideEffect>
    var showAddForm: bool
    var showSideEffectForm: bool
    var formData: SupplementForm
    var sideEffectData: SideEffectForm

    constructor ()
      ensures supplements == [] && sideEffects == []
      ensures !showAddForm && !showSideEffectForm
      ensures formData == EmptySupplementForm() && sideEffectData == EmptySideEffectForm()
    {
      supplements, sideEffects := [], [];
      showAddForm, showSideEffectForm := false, false;
      formData, sideEffectData := EmptySupplementForm(), EmptySideEffectForm();
    }

    /** The "Add Supplement" buttons show the form; its "Cancel" hides it. */
    method SetShowAddForm(show: bool)
      modifies this
      ensures showAddForm == show
      ensures supplements == old(supplements) && sideEffects == old(sideEffects)
      ensures showSideEffectForm == old(showSideEffectForm)
      ensures formData == old(formData) && sideEffectData == old(sideEffectData)
    {
      showAddForm := show;
    }

    /** "Report Side Effect" shows the form, but is disabled, and does nothing, while no supplement exists. */
    method OpenSideEffectForm()
      modifies this
      ensures showSideEffectForm == (old(showSideEffectForm) || CanReport(supplements))
      ensures supplements == old(supplements) && sideEffects == old(sideEffects)
      ensures showAddForm == old(showAddForm)
      ensures formData == old(formData) && sideEffectData == old(sideEffectData)
    {
      if CanReport(supplements) {
        showSideEffectForm := true;
      }
    }

    /** The side-effect form's "Cancel". */
    method CancelSideEffectForm()
      modifies this
      ensures !showSideEffectForm
      ensures supplements == old(supplements) && sideEffects == old(sideEffects)
      ensures showAddForm == old(showAddForm)
      ensures formData == old(formData) && sideEffectData == old(sideEffectData)
    {
      showSideEffectForm := false;
    }

    /** `handleInputChange`. */
    method InputChange(input: SupplementInput)
      modifies this
      ensures formData == EditSupplement(old(formData), input)
      ensures supplements == old(supplements) && sideEffects == old(sideEffects)
      ensures showAddForm == old(showAddForm) && showSideEffectForm == old(showSideEffectForm)
      ensures sideEffectData == old(sideEffectData)
    {
      formData := EditSupplement(formData, input);
    }

    /** `handleSideEffectChange`. */
    method SideEffectChange(input: SideEffectInput)
      modifies this
      ensures sideEffectData == EditSideEffect(old(sideEffectData), input)
      ensures supplements == old(supplements) && sideEffects == old(sideEffects)
      ensures showAddForm == old(showAddForm) && showSideEffectForm == old(showSideEffectForm)
      ensures formData == old(formData)
    {
      sideEffectData := EditSideEffect(sideEffectData, input);
    }

    /**
     * `handleAddSupplement`: one record is appended after the unchanged
     * earlier ones, the form is reset and hidden.
     */
    method AddSupplement(id: int, createdAt: string)
      modifies this
      ensures supplements == old(supplements) + [NewSupplement(old(formData), id, createdAt)]
      ensures formData == EmptySupplementForm() && !showAddForm
      ensures sideEffects == old(sideEffects) && sideEffectData == old(sideEffectData)
      ensures showSideEffectForm == old(showSideEffectForm)
    {
      var newSupplement := NewSupplement(formData, id, createdAt);
      supplements := supplements + [newSupplement];
      formData := EmptySupplementForm();
      showAddForm := false;
    }

    /**
     * `handleAddSideEffect`: the selected supplement is looked up by id, one
     * report is appended after the unchanged earlier ones, and the form is
     * reset and hidden.
     */
    method AddSideEffect(id: int, createdAt: string)
      modifies this
      ensures sideEffects == old(sideEffects) + [NewSideEffect(old(supplements), old(sideEffectData), id, createdAt)]
      ensures sideEffectData == EmptySideEffectForm() && !showSideEffectForm
      ensures supplements == old(supplements) && formData == old(formData)
      ensures showAddForm == old(showAddForm)
    {
      var selectedSupplement := FindById(supplements, ParseInt(sideEffectData.supplementId));
      var newSideEffect := SideEffect(id, sideEffectData.supplementId, sideEffectData.description,
        sideEffectData.severity, sideEffectData.dateOccurred,
        if selectedSupplement.Some? then Some(selectedSupplement.value.name) else None, createdAt);
      sideEffects := sideEffects + [newSideEffect];
      sideEffectData := EmptySideEffectForm();
      showSideEffectForm := false;
    }
  }
}
