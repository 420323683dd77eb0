/** The health-records page: the list of records narrowed by a search term
    and a type filter, the per-type label and badge colour, the empty-state
    heading, and the add/edit form whose submission becomes a create or an
    update request. */
module HealthRecordsPage {
  import opened Types
  import opened Text
  import opened Lists

  // ------------------------------------------------------------ type table

  /** One entry of the table of record types: the stored value, the label
      shown to the user and the badge's style classes. */
  datatype TypeConfig = TypeConfig(value: string, caption: string, color: string)

  const RecordTypes: seq<TypeConfig> := [
    TypeConfig("allergy", "Allergy", "bg-red-100 text-red-800 dark:bg-red-900 dark:text-red-200"),
    TypeConfig("vital", "Vital Signs", "bg-blue-100 text-blue-800 dark:bg-blue-900 dark:text-blue-200"),
    TypeConfig("prescription", "Prescription", "bg-green-100 text-green-800 dark:bg-green-900 dark:text-green-200"),
    TypeConfig("visit", "Doctor Visit", "bg-yellow-100 text-yellow-800 dark:bg-yellow-900 dark:text-yellow-200"),
    TypeConfig("vaccination", "Vaccination", "bg-purple-100 text-purple-800 dark:bg-purple-900 dark:text-purple-200"),
    TypeConfig("other", "Other", "bg-gray-100 text-gray-800 dark:bg-gray-900 dark:text-gray-200")
  ]

  /** The badge style for a type the table does not know. */
  const DefaultColor := "bg-gray-100 text-gray-800 dark:bg-gray-900 dark:text-gray-200"

  /** `recordTypes.find(t => t.value === type)`. */
  function FindType(t: string): Option<TypeConfig>
  {
    Find(RecordTypes, (c: TypeConfig) => c.value == t)
  }

  /** `getTypeColor`: the configured colour, or gray when the type is unknown
      or its colour is empty. */
  function TypeColor(t: string): string
  {
    var found := FindType(t);
    if found.Some? && found.value.color != "" then found.value.color else DefaultColor
  }

  /** The badge text: the configured label, or the raw type string when the
      type is unknown or its label is empty. */
  function TypeLabel(t: string): string
  {
    var found := FindType(t);
    if found.Some? && found.value.caption != "" then found.value.caption else t
  }

  /** The record type listed at each position of the table. */
  const TableKinds: seq<RecordType> := [Allergy, Vital, Prescription, Visit, Vaccination, Other]

  /** Position `i` of the table configures the `i`-th record type. */
  lemma TableFollowsKinds()
    ensures |RecordTypes| == |TableKinds| == 6
    ensures forall i :: 0 <= i < 6 ==> RecordTypes[i].value == TableKinds[i].Name()
  {
  }

  /** Different record types have different stored values. */
  lemma NamesDistinct(k: RecordType, l: RecordType)
    requires k != l
    ensures k.Name() != l.Name()
  {
    // The third letters of the six values are pairwise different.
    assert k.Name()[2] == k.ThirdLetter() && l.Name()[2] == l.ThirdLetter();
  }

  /** The table lists each of the six record types, and its values are
      exactly the six stored values, each once. */
  lemma RecordTypesAreTheKinds()
    ensures forall k: RecordType :: k in TableKinds
    ensures forall i :: 0 <= i < |RecordTypes| ==> RecordTypes[i].value == TableKinds[i].Name()
    ensures forall i, j :: 0 <= i < j < |RecordTypes| ==> RecordTypes[i].value != RecordTypes[j].value
  {
    TableFollowsKinds();
    TableValuesDistinct();
    forall k: RecordType ensures k in TableKinds {
      var i := match k
        case Allergy => 0 case Vital => 1 case Prescription => 2
        case Visit => 3 case Vaccination => 4 case Other => 5;
      assert TableKinds[i] == k;
    }
  }

  lemma TableValuesDistinct()
    ensures forall i, j :: 0 <= i < j < |RecordTypes| ==> RecordTypes[i].value != RecordTypes[j].value
  {
    TableFollowsKinds();
    forall i, j | 0 <= i < j < 6 ensures TableKinds[i].Name() != TableKinds[j].Name() {
      assert TableKinds[i] != TableKinds[j];
      NamesDistinct(TableKinds[i], TableKinds[j]);
    }
  }

  /** A type listed in the table shows the label and colour configured for it. */
  lemma KnownTypeLookup(i: int)
    requires 0 <= i < |RecordTypes|
    ensures TypeLabel(RecordTypes[i].value) == RecordTypes[i].caption
    ensures TypeColor(RecordTypes[i].value) == RecordTypes[i].color
  {
    var c := RecordTypes[i];
    TableValuesDistinct();
    ConfigsFilled();
    assert forall j :: 0 <= j < i ==> RecordTypes[j].value != c.value;
    FindFirst(RecordTypes, (d: TypeConfig) => d.value == c.value, i);
    assert FindType(c.value) == Some(c);
  }

  /** Every entry of the table has a label and a colour. */
  lemma ConfigsFilled()
    ensures forall i :: 0 <= i < |RecordTypes| ==> RecordTypes[i].caption != "" && RecordTypes[i].color != ""
  {
    forall i | 0 <= i < |RecordTypes|
      ensures |RecordTypes[i].caption| > 0 && |RecordTypes[i].color| > 0
    {
    }
  }

  /** A type missing from the table is shown as its raw string on a gray badge. */
  lemma UnknownTypeLookup(t: string)
    requires forall i :: 0 <= i < |RecordTypes| ==> RecordTypes[i].value != t
    ensures TypeLabel(t) == t
    ensures TypeColor(t) == DefaultColor
  {
  }

  /** Every stored record gets its configured label and colour, never a fallback. */
  lemma RecordBadge(r: HealthRecord)
    ensures exists i :: (0 <= i < |RecordTypes| && RecordTypes[i].value == r.kind.Name() &&
      TypeLabel(r.kind.Name()) == RecordTypes[i].caption && TypeColor(r.kind.Name()) == RecordTypes[i].color)
  {
    RecordTypesAreTheKinds();
    assert r.kind in TableKinds;
    var i :| 0 <= i < |TableKinds| && TableKinds[i] == r.kind;
    KnownTypeLookup(i);
  }

  // --------------------------------------------------------------- filters

  /** The search condition: the lower-cased title or the lower-cased type
      includes the lower-cased term. */
  predicate MatchesSearch(r: HealthRecord, term: string)
  {
    Contains(Lower(r.title), Lower(term)) || Contains(Lower(r.kind.Name()), Lower(term))
  }

  /** The type condition: the record's type equals the selected value. */
  predicate MatchesType(r: HealthRecord, filterType: string)
  {
    r.kind.Name() == filterType
  }

  /** Whether a record survives both stages of the filter: an empty term and
      the value `"all"` switch their stage off. */
  predicate Keep(r: HealthRecord, term: string, filterType: string)
  {
    (term == "" || MatchesSearch(r, term)) && (filterType == "all" || MatchesType(r, filterType))
  }

  /** The list the page shows: one pass with the combined condition. */
  function VisibleRecords(records: seq<HealthRecord>, term: string, filterType: string): seq<HealthRecord>
  {
    Filter(records, (r: HealthRecord) => Keep(r, term, filterType))
  }

  /** A record is shown exactly when it is in the list and the lower-cased
      term occurs in its lower-cased title or type (or the term is empty), and
      its type is the selected one (or the selection is `"all"`). */
  lemma VisibleIff(records: seq<HealthRecord>, term: string, filterType: string, r: HealthRecord)
    ensures r in VisibleRecords(records, term, filterType) <==>
      && r in records
      && (term == "" || OccursIn(Lower(term), Lower(r.title)) || OccursIn(Lower(term), Lower(r.kind.Name())))
      && (filterType == "all" || r.kind.Name() == filterType)
  {
    ContainsIffOccurs(Lower(r.title), Lower(term));
    ContainsIffOccurs(Lower(r.kind.Name()), Lower(term));
  }

  /** With no search term and `"all"` selected, every record is shown, in order. */
  lemma NoFilterShowsAll(records: seq<HealthRecord>)
    ensures VisibleRecords(records, "", "all") == records
  {
    FilterAll(records, (r: HealthRecord) => Keep(r, "", "all"));
  }

  /** With `"all"` selected only the search applies; with an empty term only
      the type filter applies. */
  lemma StagesSwitchOff(records: seq<HealthRecord>, term: string, filterType: string)
    ensures VisibleRecords(records, term, "all") ==
      (if term == "" then records else Filter(records, (r: HealthRecord) => MatchesSearch(r, term)))
    ensures VisibleRecords(records, "", filterType) ==
      (if filterType == "all" then records else Filter(records, (r: HealthRecord) => MatchesType(r, filterType)))
  {
    var keepAll := (r: HealthRecord) => Keep(r, term, "all");
    if term == "" {
      FilterAll(records, keepAll);
    } else {
      FilterSame(records, keepAll, (r: HealthRecord) => MatchesSearch(r, term));
    }
    var keepType := (r: HealthRecord) => Keep(r, "", filterType);
    if filterType == "all" {
      FilterAll(records, keepType);
    } else {
      FilterSame(records, keepType, (r: HealthRecord) => MatchesType(r, filterType));
    }
  }

  /** The shown list keeps the relative order of `records`. */
  lemma VisibleIsSubsequence(records: seq<HealthRecord>, term: string, filterType: string)
    ensures IsSubsequence(VisibleRecords(records, term, filterType), records)
  {
    FilterIsSubsequence(records, (r: HealthRecord) => Keep(r, term, filterType));
  }

  // ------------------------------------------------------------ empty state

  const NoRecordsYet := "No health records yet"
  const NoRecordsMatch := "No records match your search"

  /** The heading shown instead of the grid, if the grid is empty. */
  function EmptyStateHeading(records: seq<HealthRecord>, filtered: seq<HealthRecord>): Option<string>
  {
    if |filtered| == 0 then Some(if |records| == 0 then NoRecordsYet else NoRecordsMatch) else None
  }

  /** "No health records yet" exactly when there are no records at all; "No
      records match your search" exactly when there are records but the
      filters reject every one of them; no heading when something is shown. */
  lemma EmptyStateCases(records: seq<HealthRecord>, term: string, filterType: string)
    ensures var heading := EmptyStateHeading(records, VisibleRecords(records, term, filterType));
      && (heading == Some(NoRecordsYet) <==> records == [])
      && (heading == Some(NoRecordsMatch) <==>
            records != [] && forall i :: 0 <= i < |records| ==> !Keep(records[i], term, filterType))
      && (heading == None <==> exists i :: 0 <= i < |records| && Keep(records[i], term, filterType))
  {
    var shown := VisibleRecords(records, term, filterType);
    if shown != [] {
      assert shown[0] in records;
      var i :| 0 <= i < |records| && records[i] == shown[0];
    } else if exists i :: 0 <= i < |records| && Keep(records[i], term, filterType) {
      var i :| 0 <= i < |records| && Keep(records[i], term, filterType);
      assert records[i] in shown;
    }
  }

  // ------------------------------------------------------------------ form

  /** The values of the add/edit form as the schema checks them: `type` and
      `title` as strings (empty when left blank), `notes` and `meta` as
      documents of any shape, or absent. */
  datatype RecordForm = RecordForm(kind: string, title: string, notes: Option<Json>, meta: Option<Json>)

  datatype RecordField = TypeField | TitleField | NotesField | MetaField

  const TypeRequired := "Type is required"
  const TitleRequired := "Title is required"

  /** The schema's built-in type error for a document that is not an object;
      the page shows no message for notes or meta. */
  const NotAnObject := "must be an object"

  /** What `yup.object().default({})` accepts: an absent value (which
      becomes `{}`) or an object, and not null, an array or a scalar. */
  predicate ObjectOrAbsent(d: Option<Json>)
  {
    d.None? || d.value.JObject?
  }

  /** The request body for creating or updating a record. The type is the
      form's string, cast without a check. */
  datatype RecordPayload = RecordPayload(kind: string, title: string, notes: Json, meta: Json)

  /** The request `onSubmit` sends. */
  datatype RecordRequest =
    | CreateRecord(data: RecordPayload)
    | UpdateRecord(id: string, data: RecordPayload)

  /** The schema's messages: a required string rejects the empty string,
      and a document that is present but not an object fails its type check. */
  function RecordFormErrors(form: RecordForm): (errs: map<RecordField, string>)
    ensures TypeField in errs <==> form.kind == ""
    ensures TitleField in errs <==> form.title == ""
    ensures NotesField in errs <==> !ObjectOrAbsent(form.notes)
    ensures MetaField in errs <==> !ObjectOrAbsent(form.meta)
    ensures TypeField in errs ==> errs[TypeField] == TypeRequired
    ensures TitleField in errs ==> errs[TitleField] == TitleRequired
    ensures NotesField in errs ==> errs[NotesField] == NotAnObject
    ensures MetaField in errs ==> errs[MetaField] == NotAnObject
  {
    var typeErr := if form.kind == "" then map[TypeField := TypeRequired] else map[];
    var titleErr := if form.title == "" then map[TitleField := TitleRequired] else map[];
    var notesErr := if ObjectOrAbsent(form.notes) then map[] else map[NotesField := NotAnObject];
    var metaErr := if ObjectOrAbsent(form.meta) then map[] else map[MetaField := NotAnObject];
    typeErr + titleErr + notesErr + metaErr
  }

  /** `value || {}`: a missing or falsy document becomes the empty object. */
  function OrEmptyObject(value: Option<Json>): (r: Json)
    ensures Truthy(r)
    ensures value.Some? && Truthy(value.value) ==> r == value.value
    ensures !(value.Some? && Truthy(value.value)) ==> r == EmptyObject
  {
    if value.Some? && Truthy(value.value) then value.value else EmptyObject
  }

  /** `recordData` as `onSubmit` builds it. */
  function RecordPayloadOf(form: RecordForm): (p: RecordPayload)
    ensures p.kind == form.kind && p.title == form.title
    ensures Truthy(p.notes) && Truthy(p.meta)
  {
    RecordPayload(form.kind, form.title, OrEmptyObject(form.notes), OrEmptyObject(form.meta))
  }

  /** The documents are only type-checked: putting absent or object
      documents in the form clears their own entries and leaves the type and
      title entries as they were. */
  lemma RecordSchemaDocumentsOnlyTypeChecked(form: RecordForm, notes: Option<Json>, meta: Option<Json>)
    requires ObjectOrAbsent(notes) && ObjectOrAbsent(meta)
    ensures RecordFormErrors(form.(notes := notes, meta := meta)) == RecordFormErrors(form) - {NotesField, MetaField}
  {
  }

  /** A null document is refused even though `value || {}` would have
      replaced it, so the form is not sent. */
  lemma NullNotesRefused(form: RecordForm)
    requires form.notes == Some(JNull)
    ensures RecordFormErrors(form) != map[]
    ensures RecordPayloadOf(form).notes == EmptyObject
  {
    assert NotesField in RecordFormErrors(form);
  }

  /** A titled form whose type was picked from the table and whose documents
      are objects or absent passes the schema, and its payload names the
      record type configured at that position. */
  lemma TableTypeAccepted(form: RecordForm, i: int)
    requires 0 <= i < |RecordTypes| && form.kind == RecordTypes[i].value && form.title != ""
    requires ObjectOrAbsent(form.notes) && ObjectOrAbsent(form.meta)
    ensures RecordFormErrors(form) == map[]
    ensures RecordPayloadOf(form).kind == TableKinds[i].Name()
  {
    TableFollowsKinds();
    assert |TableKinds[i].Name()| > 0;
  }

  /** The form `handleEdit` pre-fills from a record. */
  function FormOf(r: HealthRecord): RecordForm
  {
    RecordForm(r.kind.Name(), r.title, Some(r.notes), Some(if r.meta.Some? then r.meta.value else EmptyText))
  }

  /** What an empty text field or textarea holds. */
  const EmptyText := JString("")

  /** The form before any values are set: every mounted field, the two
      textareas included, holds the empty string. */
  const BlankForm := RecordForm("", "", Some(EmptyText), Some(EmptyText))

  /** As written, a new record whose textareas were left empty is refused:
      the empty strings fail the object check on both documents. */
  lemma EmptyTextareasRefused(kind: string, title: string)
    ensures NotesField in RecordFormErrors(BlankForm.(kind := kind, title := title))
    ensures MetaField in RecordFormErrors(BlankForm.(kind := kind, title := title))
  {
  }

  /** Submitting an unchanged edit form of a titled record whose documents
      are objects sends back exactly the record's type, title, notes and
      metadata. */
  lemma EditRoundTrip(r: HealthRecord)
    requires r.title != ""
    requires r.notes.JObject? && r.meta.Some? && r.meta.value.JObject?
    ensures RecordFormErrors(FormOf(r)) == map[]
    ensures RecordPayloadOf(FormOf(r)) == RecordPayload(r.kind.Name(), r.title, r.notes, r.meta.value)
  {
    assert |r.kind.Name()| > 0;
  }

  /** A record without metadata cannot be saved from its edit form: the
      empty Metadata textarea fails the object check. */
  lemma EditWithoutMetaRefused(r: HealthRecord)
    requires r.meta.None?
    ensures MetaField in RecordFormErrors(FormOf(r)) && RecordFormErrors(FormOf(r)) != map[]
  {
  }

  /** A record whose notes are not an object cannot be saved from its edit
      form: the schema refuses it. */
  lemma EditOfNonObjectNotesRefused(r: HealthRecord)
    requires !r.notes.JObject?
    ensures NotesField in RecordFormErrors(FormOf(r)) && RecordFormErrors(FormOf(r)) != map[]
  {
  }

  // ------------------------------------------------------------------ page

  class HealthRecordsPageState {
    var records: seq<HealthRecord>
    var filteredRecords: seq<HealthRecord>
    var searchTerm: string
    var filterType: string
    var isModalOpen: bool
    var editingRecord: Option<HealthRecord>
    var form: RecordForm
    var formErrors: map<RecordField, string>
    /** The values `reset()` restores: the last values given to `reset`. */
    var defaults: RecordForm

    /** The filter effect has run since the last change to its inputs. */
    ghost predicate Valid()
      reads this
    {
      filteredRecords == VisibleRecords(records, searchTerm, filterType)
    }

    constructor ()
      ensures Valid()
      ensures records == [] && filteredRecords == [] && searchTerm == "" && filterType == "all"
      ensures !isModalOpen && editingRecord == None && form == BlankForm && formErrors == map[]
      ensures defaults == BlankForm
    {
      records, filteredRecords := [], [];
      searchTerm, filterType := "", "all";
      isModalOpen, editingRecord := false, None;
      form, formErrors := BlankForm, map[];
      defaults := BlankForm;
    }

    /** The filter effect: narrow by the search term, then by the type. */
    method ApplyFilters()
      modifies this`filteredRecords
      ensures Valid()
    {
      var term, selected := searchTerm, filterType;
      var filtered := records;
      if term != "" {
        filtered := Filter(filtered, (r: HealthRecord) => MatchesSearch(r, term));
      }
      if selected != "all" {
        filtered := Filter(filtered, (r: HealthRecord) => MatchesType(r, selected));
      }
      TwoStagesAreOne(records, searchTerm, filterType);
      filteredRecords := filtered;
    }

    /** A fetch stores the records; the effect then recomputes the list. */
    method SetRecords(fetched: seq<HealthRecord>)
      modifies this`records, this`filteredRecords
      ensures records == fetched
      ensures Valid()
    {
      records := fetched;
      ApplyFilters();
    }

    /** Typing in the search box. */
    method SetSearchTerm(term: string)
      modifies this`searchTerm, this`filteredRecords
      ensures searchTerm == term
      ensures Valid()
    {
      searchTerm := term;
      ApplyFilters();
    }

    /** Choosing in the type selector. */
    method SetFilterType(t: string)
      modifies this`filterType, this`filteredRecords
      ensures filterType == t
      ensures Valid()
    {
      filterType := t;
      ApplyFilters();
    }

    /** `openModal`: nothing is being edited and `reset()` restores the
        default values, which are blank only if no record was edited before. */
    method OpenModal()
      modifies this`editingRecord, this`form, this`formErrors, this`isModalOpen
      ensures editingRecord == None && form == defaults && formErrors == map[] && isModalOpen
    {
      editingRecord := None;
      form, formErrors := defaults, map[];
      isModalOpen := true;
    }

    /** `handleEdit`: `reset(values)` fills the form from the record and makes
        those values the new defaults. */
    method Edit(r: HealthRecord)
      modifies this`editingRecord, this`form, this`defaults, this`formErrors, this`isModalOpen
      ensures editingRecord == Some(r) && form == FormOf(r) && defaults == FormOf(r)
      ensures formErrors == map[] && isModalOpen
    {
      editingRecord := Some(r);
      form, formErrors := FormOf(r), map[];
      defaults := FormOf(r);
      isModalOpen := true;
    }

    /** The Cancel button closes the dialog and leaves the rest as it was. */
    method CloseModal()
      modifies this`isModalOpen
      ensures !isModalOpen
    {
      isModalOpen := false;
    }

    /** Submitting the form. An invalid form records the schema's messages and
        sends nothing. A valid one is sent as an update of the record being
        edited, or as a new record; `saved` is whether the server accepted it.
        On success the dialog closes, nothing is being edited any more and
        `reset()` restores the default values; on failure the dialog stays as
        it was. */
    method Submit(saved: bool) returns (request: Option<RecordRequest>)
      modifies this`isModalOpen, this`editingRecord, this`form, this`formErrors
      ensures request.None? <==> old(RecordFormErrors(form)) != map[]
      ensures request.None? ==> (formErrors == old(RecordFormErrors(form)) &&
        isModalOpen == old(isModalOpen) && editingRecord == old(editingRecord) && form == old(form))
      ensures request.Some? && old(editingRecord).Some? ==>
        request.value == UpdateRecord(old(editingRecord).value.id, RecordPayloadOf(old(form)))
      ensures request.Some? && old(editingRecord).None? ==>
        request.value == CreateRecord(RecordPayloadOf(old(form)))
      ensures request.Some? && saved ==>
        (!isModalOpen && editingRecord == None && form == defaults && formErrors == map[])
      ensures request.Some? && !saved ==>
        (isModalOpen == old(isModalOpen) && editingRecord == old(editingRecord) && form == old(form) &&
         formErrors == map[])
    {
      var errs := RecordFormErrors(form);
      if errs != map[] {
        formErrors := errs;
        return None;
      }
      formErrors := map[];
      var data := RecordPayloadOf(form);
      if editingRecord.Some? {
        request := Some(UpdateRecord(editingRecord.value.id, data));
      } else {
        request := Some(CreateRecord(data));
      }
      if saved {
        isModalOpen := false;
        editingRecord := None;
        form := defaults;
      }
    }
  }

  /** "Add Record" after editing a record, even when the edit was cancelled,
      opens a form pre-filled with that record, and submitting it unchanged
      would create a copy of the record. */
  method AddAfterEdit(page: HealthRecordsPageState, r: HealthRecord)
    modifies page`editingRecord, page`form, page`defaults, page`formErrors, page`isModalOpen
    ensures page.isModalOpen && page.editingRecord == None && page.form == FormOf(r)
  {
    page.Edit(r);
    page.CloseModal();
    page.OpenModal();
  }

  /** The effect's two filters, applied one after the other, keep what the
      combined condition keeps. */
  lemma TwoStagesAreOne(records: seq<HealthRecord>, term: string, filterType: string)
    ensures
      var searched := if term != "" then Filter(records, (r: HealthRecord) => MatchesSearch(r, term)) else records;
      (if filterType != "all" then Filter(searched, (r: HealthRecord) => MatchesType(r, filterType)) else searched)
        == VisibleRecords(records, term, filterType)
  {
    var search := (r: HealthRecord) => MatchesSearch(r, term);
    var byType := (r: HealthRecord) => MatchesType(r, filterType);
    var keep := (r: HealthRecord) => Keep(r, term, filterType);
    if term != "" && filterType != "all" {
      FilterFilter(records, search, byType, keep);
    } else if term != "" {
      FilterSame(records, search, keep);
    } else if filterType != "all" {
      FilterSame(records, byType, keep);
    } else {
      FilterAll(records, keep);
    }
  }
}
