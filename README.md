# Health dashboard front end — verified model

This project models the logic of a personal health dashboard's web front end.
The dashboard keeps health records (allergies, vital signs, prescriptions,
doctor visits, vaccinations, other) and reminders (one-off or repeating
daily, weekly or monthly). Four parts of it are modelled:

- **The landing page's contact form** (`contact_form.dfy`, module `ContactForm`).
  - It holds three text fields, a per-field error map, and the
    `isSubmitting` / `isSubmitted` flags.
  - `validateForm` rebuilds the error map from scratch. Each field gets a
    trimmed required check; then name and message get minimum lengths of 2 and
    10, counted like JavaScript's `length` in UTF-16 code units, and the email gets the shape test `^[^\s@]+@[^\s@]+\.[^\s@]+$`.
  - `handleChange` stores one field and clears only that field's error.
  - `handleSubmit` goes on only when the form is valid, then passes through
    submitting, submitted and reset.
- **The health-records page** (`health_records.dfy`, module `HealthRecordsPage`).
  - The list is narrowed by a case-insensitive search on title or type. The
    result is then narrowed by an exact type selection, where `"all"` means no
    type filter.
  - Each type maps to a label and a badge colour, with fallbacks for unknown
    types.
  - When the list is empty, a heading says why.
  - The add/edit form has a schema, and its payload fills in defaults.
    Submitting sends an update while a record is being edited and a create
    otherwise.
  - `reset(values)` in the edit handler also makes those values the form's
    defaults, so a later `reset()` restores the last edited record rather
    than a blank form. Empty textareas hold the empty string, which the
    schema's object check refuses, so as written a record cannot be saved
    with an empty Notes or Metadata box.
- **The reminders page** (`reminders.dfy`, module `RemindersPage`).
  - Reminders split into active and completed.
  - The header count and the completed section follow from that split.
  - The create form has a schema and a payload with a default message.
  - The repeat selector offers four choices.
- **The dashboard** (`dashboard.dfy`, module `DashboardPage`).
  - "Upcoming" shows the first three reminders that are not done and are due
    after now, earliest first.
  - "Recent" sorts the `records` array itself, newest first, and shows the
    first three.
  - The stats row has three counts: total records, active reminders, and
    records created "this month".

Shared definitions:
- `types.dfy` (module `Types`): the record and reminder entities, with
  timestamps as integers.
- `text.dfy` (module `Text`): JavaScript's `trim`, `toLowerCase`, `includes`,
  `length` in UTF-16 code units and the email regular expression, with
  whitespace and case mapping on ASCII.
- `lists.dfy` (module `Lists`): `filter`, `find`, `slice(0, n)` and a stable
  `sort` with a numeric comparator.

Section 23.1.3.30 of ECMA-262 (2023 edition) requires `sort` to be stable. It
is modelled as an insertion sort by an integer key. `Lists.StableSortInPlace`
sorts an array in place and is proved to produce exactly `Lists.SortByKey` of
the old contents. The descending comparator `b - a` is the ascending sort by
the negated key.

The "This Month" stat compares only the month number of the creation time
with the month number of now, so records from the same month of earlier years
are counted. This is modelled as written; `DashboardPage.ThisMonthIgnoresYear`
states it.

## Model

| member | source | states |
|---|---|---|
| ContactForm.NameRule | src/components/ContactForm.tsx:30-34 | a blank name gives "Name is required", a trimmed length of 1 UTF-16 unit gives "Name must be at least 2 characters", and a trimmed length of at least 2 units gives no error |
| ContactForm.AstralNameAccepted | src/components/ContactForm.tsx:32 | a name of one character outside the Basic Multilingual Plane has length 2 and is accepted |
| ContactForm.EmailRule | src/components/ContactForm.tsx:36-40 | a blank email gives "Email is required"; otherwise there is no error exactly when the untrimmed string matches the pattern, and "Please enter a valid email address" exactly when it is not blank and does not match |
| ContactForm.PaddedEmailInvalid | src/components/ContactForm.tsx:36-40 | a non-blank email with whitespace at either end is reported invalid, not missing |
| ContactForm.MessageRule | src/components/ContactForm.tsx:42-46 | a blank message gives "Message is required", a trimmed length of 1 to 9 UTF-16 units gives "Message must be at least 10 characters", and 10 or more gives no error |
| ContactForm.ErrorsPerField | src/components/ContactForm.tsx:27-49 | the rebuilt map has an entry for a field exactly when that field fails its rule, holding that rule's single message |
| ContactForm.ValidIffAllRulesPass | src/components/ContactForm.tsx:49 | the error map is empty exactly when the name has at least 2 UTF-16 units after trimming, the email matches, and the message has at least 10 UTF-16 units after trimming |
| ContactForm.ThreeErrorsExample | src/components/ContactForm.tsx:27-49 | name "A", email "x" and an empty message give exactly the three errors: name too short, email invalid, message required |
| ContactForm.ErrorMessagesNonEmpty | src/components/ContactForm.tsx:28-46 | every message the validator records is non-empty, so a recorded error is always shown |
| ContactForm.RecordAll | src/components/ContactForm.tsx:28-46 | adding the three optional errors one after the other to an empty map builds the map with one entry per present error |
| ContactForm.ContactFormState.constructor | src/components/ContactForm.tsx:17-24 | the form starts with empty fields, no errors, and neither submitting nor submitted |
| ContactForm.ContactFormState.ValidateForm | src/components/ContactForm.tsx:27-50 | replaces the error map with the one the rules give for the current fields (not merged with the old one), and returns true exactly when all three rules pass |
| ContactForm.ContactFormState.HandleChange | src/components/ContactForm.tsx:72-80 | sets only the changed field's value, removes only that field's error, and keeps the other fields and errors |
| ContactForm.ContactFormState.HandleSubmit | src/components/ContactForm.tsx:52-57 | validates; an invalid form leaves `isSubmitting` false and `isSubmitted` unchanged; a valid form enters the submitting state |
| ContactForm.ContactFormState.SendCompleted | src/components/ContactForm.tsx:60-63 | when the simulated send resolves, submitting ends and the confirmation is shown |
| ContactForm.ContactFormState.ResetTimerFired | src/components/ContactForm.tsx:66-69 | when the confirmation timer fires, all three fields are emptied and the confirmation is hidden |
| ContactForm.SubmitToCompletion | src/components/ContactForm.tsx:52-70 | an accepted submission ends with empty fields, no errors, and neither flag set; a rejected one keeps the three fields, records the rule errors of those fields and leaves `isSubmitted` as it was |
| Text.TrimStartSpec | src/components/ContactForm.tsx:30 | `trimStart` cuts a blank prefix and leaves a string that does not start with whitespace |
| Text.TrimEndSpec | src/components/ContactForm.tsx:30 | `trimEnd` cuts a blank suffix and leaves a string that does not end with whitespace |
| Text.TrimMeetsSpec | src/components/ContactForm.tsx:30 | `trim` removes a blank prefix and a blank suffix and leaves no whitespace at either end |
| Text.Utf16LengthBounds | src/components/ContactForm.tsx:32 | the UTF-16 length is zero only for the empty string and lies between the character count and twice it |
| Text.TrimEmptyIffBlank | src/components/ContactForm.tsx:30 | a string trims to the empty string exactly when it is all whitespace |
| Text.EmailShapeIffPattern | src/components/ContactForm.tsx:38 | the scan for an `@` followed by a domain with an inner dot accepts exactly the strings the regular expression matches |
| Text.EmailPatternHasNoEdgeSpace | src/components/ContactForm.tsx:38 | a matching address is not blank and has no whitespace at either end |
| Text.LowerAt | src/pages/HealthRecords.tsx:56 | `toLowerCase` maps each character on its own and keeps the length |
| Text.ContainsIffOccurs | src/pages/HealthRecords.tsx:56-57 | `includes` holds exactly when the needle occurs at some position of the haystack |
| HealthRecordsPage.RecordTypesAreTheKinds | src/pages/HealthRecords.tsx:38-45 | the type table lists each of the six record types of src/types/index.ts:15 once, with distinct values |
| HealthRecordsPage.KnownTypeLookup | src/pages/HealthRecords.tsx:134-137 | a type in the table gets the label and colour configured for it |
| HealthRecordsPage.UnknownTypeLookup | src/pages/HealthRecords.tsx:134-137 | a type missing from the table is labelled with its raw string and gets the gray badge |
| HealthRecordsPage.RecordBadge | src/pages/HealthRecords.tsx:226-227 | every stored record's badge shows the configured label and colour of its type, never a fallback |
| HealthRecordsPage.VisibleIff | src/pages/HealthRecords.tsx:51-66 | a record is shown exactly when it is in the list, the lower-cased term occurs in its lower-cased title or type (or the term is empty), and its type equals the selection (or the selection is "all") |
| HealthRecordsPage.NoFilterShowsAll | src/pages/HealthRecords.tsx:54 | with an empty term and "all" selected, the shown list is the whole list |
| HealthRecordsPage.StagesSwitchOff | src/pages/HealthRecords.tsx:54-63 | "all" applies no type filter, so only the search applies; an empty term applies no search, so only the exact type filter applies |
| HealthRecordsPage.VisibleIsSubsequence | src/pages/HealthRecords.tsx:51-66 | the shown list is an order-preserving subsequence of the records |
| HealthRecordsPage.TwoStagesAreOne | src/pages/HealthRecords.tsx:52-63 | the search filter followed by the type filter keeps exactly what the combined (AND) condition keeps |
| HealthRecordsPage.EmptyStateCases | src/pages/HealthRecords.tsx:196-200 | "No health records yet" exactly when there are no records; "No records match your search" exactly when there are records but none passes the filters; no heading when something is shown |
| HealthRecordsPage.RecordSchemaDocumentsOnlyTypeChecked | src/pages/HealthRecords.tsx:14-15 | absent or object documents never produce an error, and the documents affect only their own entries |
| HealthRecordsPage.NullNotesRefused | src/pages/HealthRecords.tsx:14 | null notes are refused by the schema even though the payload's fallback would have replaced them with `{}` |
| HealthRecordsPage.TableTypeAccepted | src/pages/HealthRecords.tsx:80-86 | a titled form whose type comes from the table and whose documents are objects or absent passes the schema, and its payload names the record type configured there |
| HealthRecordsPage.OrEmptyObject | src/pages/HealthRecords.tsx:84-85 | the result is always truthy, so the empty-object fallback never sends a falsy document; a truthy document passes unchanged |
| HealthRecordsPage.RecordPayloadOf | src/pages/HealthRecords.tsx:81-86 | the payload copies type and title, and its notes and metadata are always present |
| HealthRecordsPage.EmptyTextareasRefused | src/pages/HealthRecords.tsx:14-15 | a form whose Notes and Metadata textareas were left empty gets a type error on both documents, whatever its type and title |
| HealthRecordsPage.EditRoundTrip | src/pages/HealthRecords.tsx:105-114 | submitting an unchanged edit form of a titled record whose notes and metadata are objects passes the schema and sends back exactly its type, title, notes and metadata |
| HealthRecordsPage.EditWithoutMetaRefused | src/pages/HealthRecords.tsx:105-114 | the edit form of a record without metadata is refused, because its Metadata textarea holds the empty string |
| HealthRecordsPage.EditOfNonObjectNotesRefused | src/pages/HealthRecords.tsx:105-114 | the edit form of a record whose notes are not an object is refused by the schema |
| HealthRecordsPage.HealthRecordsPageState.constructor | src/pages/HealthRecords.tsx:21-27 | the page starts with no records, an empty search, "all" selected, the dialog closed, and a blank form that is also the default |
| HealthRecordsPage.HealthRecordsPageState.ApplyFilters | src/pages/HealthRecords.tsx:51-66 | the filter effect leaves `filteredRecords` equal to the records that pass both conditions, in order |
| HealthRecordsPage.HealthRecordsPageState.SetRecords | src/pages/HealthRecords.tsx:71 | storing fetched records and re-running the effect keeps the shown list in step |
| HealthRecordsPage.HealthRecordsPageState.SetSearchTerm | src/pages/HealthRecords.tsx:173-174 | typing a term and re-running the effect keeps the shown list in step |
| HealthRecordsPage.HealthRecordsPageState.SetFilterType | src/pages/HealthRecords.tsx:181-182 | selecting a type and re-running the effect keeps the shown list in step |
| HealthRecordsPage.HealthRecordsPageState.OpenModal | src/pages/HealthRecords.tsx:128-132 | opening for a new record clears the record being edited and resets the form to the current defaults |
| HealthRecordsPage.HealthRecordsPageState.Edit | src/pages/HealthRecords.tsx:105-114 | editing remembers the record, pre-fills the form from it, makes those values the defaults, and opens the dialog |
| HealthRecordsPage.AddAfterEdit | src/pages/HealthRecords.tsx:105-132 | after editing a record, even a cancelled edit, "Add Record" opens a form pre-filled with that record |
| HealthRecordsPage.HealthRecordsPageState.CloseModal | src/pages/HealthRecords.tsx:344 | Cancel closes the dialog |
| HealthRecordsPage.HealthRecordsPageState.Submit | src/pages/HealthRecords.tsx:79-103 | an invalid form sends nothing and records the schema's messages; a valid one sends an update with the edited record's id, or else a create; on success the dialog closes, nothing is being edited and the form returns to the defaults |
| RemindersPage.PartitionMembership | src/pages/Reminders.tsx:90-91 | the active list holds exactly the reminders not done and the completed list exactly those done, so none is in both |
| RemindersPage.PartitionIsComplete | src/pages/Reminders.tsx:90-91 | the two lists together hold every reminder as often as the full list, and their lengths sum to its length |
| RemindersPage.PartitionKeepsOrder | src/pages/Reminders.tsx:90-91 | each list keeps the relative order of the reminders |
| RemindersPage.ActiveHeaderCount | src/pages/Reminders.tsx:124 | the header count is the number of positions holding a reminder that is not done |
| RemindersPage.SectionsShown | src/pages/Reminders.tsx:128 | the completed section appears exactly when some reminder is done (line 193); the "No active reminders" placeholder appears exactly when all are done |
| RemindersPage.RepeatOptionsAreThePolicies | src/pages/Reminders.tsx:34-39 | the selector offers "none", "daily", "weekly" and "monthly", the four policies of src/types/index.ts:27, each once |
| RemindersPage.ReminderSchemaIgnoresMessage | src/pages/Reminders.tsx:11-16 | the message never produces a schema error |
| RemindersPage.ReminderPayloadOf | src/pages/Reminders.tsx:58-63 | the empty-string fallback never alters the text: the payload's message is the form's message, or "" when absent |
| RemindersPage.ReminderRoundTrip | src/pages/Reminders.tsx:56-65 | payload round trip: a form holding a titled reminder's title, repeat policy name and message, with a date, is accepted and its payload gives back that title, that name and the message text or "" |
| RemindersPage.SubmittedRepeatIsAPolicy | src/pages/Reminders.tsx:58-63 | a complete form whose repeat came from the selector sends a valid policy name and keeps the message's text |
| DashboardPage.UpcomingQualify | src/pages/Dashboard.tsx:34-35 | every upcoming reminder is one of the reminders, not done, and due strictly after now |
| DashboardPage.UpcomingShape | src/pages/Dashboard.tsx:36-37 | the upcoming list is in ascending order of due time, has min(3, number qualifying) entries, and is the start of the sorted qualifying list |
| DashboardPage.UpcomingTiesInInputOrder | src/pages/Dashboard.tsx:36 | reminders with the same due time keep their input order (the sort is stable) |
| DashboardPage.UpcomingAreEarliest | src/pages/Dashboard.tsx:36-37 | no qualifying reminder left out is due earlier than the last one shown |
| DashboardPage.RecentShape | src/pages/Dashboard.tsx:39-41 | the reordered records are a permutation of the old ones in descending order of creation time; the recent list is their first min(3, n) |
| DashboardPage.ActiveCountMeaning | src/pages/Dashboard.tsx:53 | the "Active Reminders" count is the number of reminders not done, equal to the length of the reminders page's active list |
| DashboardPage.ThisMonthMeaning | src/pages/Dashboard.tsx:60-62 | the "This Month" count is the number of records whose creation month number equals now's |
| DashboardPage.ThisMonthIgnoresYear | src/pages/Dashboard.tsx:60-62 | the count consults only month numbers: moving records to timestamps with the same month number, in any year, leaves it unchanged |
| DashboardPage.StatsIgnoreOrder | src/pages/Dashboard.tsx:40-62 | total and month counts do not depend on order, so the in-place sort before them changes neither |
| DashboardPage.Dashboard.constructor | src/pages/Dashboard.tsx:11-12 | the page holds the fetched records and reminders in fresh arrays |
| DashboardPage.Dashboard.ComputeUpcoming | src/pages/Dashboard.tsx:34-37 | returns the upcoming list, sorting a fresh copy and leaving the reminders array untouched |
| DashboardPage.Dashboard.ComputeRecent | src/pages/Dashboard.tsx:39-41 | sorts `records` itself, stably and newest first, and returns its first three entries |
| DashboardPage.Dashboard.ComputeStats | src/pages/Dashboard.tsx:43-67 | the three stats are the array length, the count of not-done reminders, and the count of records created in now's month |
| DashboardPage.Dashboard.Render | src/pages/Dashboard.tsx:34-67 | one render returns the upcoming list and the recent list, reorders `records`, and gives the stats of the fetched lists |
| Lists.Filter | src/pages/Reminders.tsx:90 | `filter` keeps exactly the elements satisfying the condition, and never lengthens the list |
| Lists.FilterFilter | src/pages/HealthRecords.tsx:54-63 | filtering twice equals filtering once by the conjunction |
| Lists.FilterSplit | src/pages/Reminders.tsx:90-91 | filtering by a condition and by its negation splits the list: the multisets and the lengths add up |
| Lists.FilterIsSubsequence | src/pages/HealthRecords.tsx:55 | `filter` keeps the relative order of what it keeps |
| Lists.FilterLengthCountsIndices | src/pages/Dashboard.tsx:53 | the length of a filtered list is the number of positions satisfying the condition |
| Lists.FilterCountPermutation | src/pages/Dashboard.tsx:60-62 | rearranging a list does not change how many elements a filter keeps |
| Lists.Find | src/pages/HealthRecords.tsx:135 | `find` returns nothing exactly when no element satisfies the condition, and otherwise an element that does |
| Lists.FindFirst | src/pages/HealthRecords.tsx:135 | `find` returns the element at the first position satisfying the condition |
| Lists.SortByKeyPermutes | src/pages/Dashboard.tsx:36 | sorting rearranges the list without adding or losing elements |
| Lists.SortByKeySorted | src/pages/Dashboard.tsx:36 | the sorted list is in ascending key order |
| Lists.SortByKeyStable | src/pages/Dashboard.tsx:36 | elements with equal keys keep their relative order (section 23.1.3.30 of ECMA-262) |
| Lists.InsertInPlace | src/pages/Dashboard.tsx:40 | one insertion step places the element among the sorted prefix in the array and leaves the rest unchanged |
| Lists.StableSortInPlace | src/pages/Dashboard.tsx:40 | sorting an array in place leaves exactly the stable sort of its old contents |

## Left out

- Network calls (`healthAPI`, `reminderAPI`, `exportAPI` in src/services/api.ts) are not part of this model. Each call's outcome is a parameter (`saved` in `HealthRecordsPage.HealthRecordsPageState.Submit`), or the request is returned as a value.
- The refetch after a save, a mark-done or a delete is not modelled. A refetch is a later `SetRecords` call.
- Deleting a record (`handleDelete`, behind `window.confirm`) and marking a reminder done (`handleMarkDone`) are not modelled. Each is a network call followed by a refetch.
- Loading flags, toasts and error messages from the server are not modelled. They are presentation only.
- The export page, the navigation bar, hero, features and footer sections, and the app shell are not part of this model. They are presentation and browser downloads.
- The contact form's `focusedField` and its CSS classes are not modelled. They are presentation only.
- Date parsing, `getMonth` and time zones are parameters. Timestamps are integers, `now` is a parameter, and the month of a timestamp is a parameter `monthOf`. An unparseable date, whose comparisons are all false in the source, is not modelled.
- Unicode whitespace and case mapping are restricted to ASCII: the six ASCII whitespace characters and the letters A-Z.
- The parsing and casting that yup and react-hook-form do are not modelled. The form values are the values the schema checks: strings, with optional documents or message.
- The dashboard's `recordTypeColors` map (src/pages/Dashboard.tsx:69-76) is not modelled. It is presentation only.
- ContactForm.ContactFormState.HandleChange: models a cleared error as a removed key. The source stores `undefined` under the key, and every reader of the map treats that as no error.
- ContactForm.ContactFormState.HandleSubmit: requires that no submission is pending. The source disables the submit button while submitting (src/components/ContactForm.tsx:220) and does not render the form while the confirmation is shown (src/components/ContactForm.tsx:95).
- ContactForm.ContactFormState.SendCompleted: the two-second and three-second delays are modelled as separate transitions with no timing.
- HealthRecordsPage.RecordFormErrors: the wording of the schema's built-in type error for notes and meta is not modelled; a fixed text stands for it, and the page displays no error for those fields.
- How text typed into the Notes and Metadata textareas becomes the value the schema checks (kept as a string, or parsed as JSON by some versions of yup) is not modelled; the form holds that value directly as a document. Untouched empty textareas are modelled as the empty string.
- ContactForm.SubmitToCompletion: the browser's own checks on the `type="email"` input (src/components/ContactForm.tsx:171) are not modelled: it blocks the submit event for a non-empty value that is not an e-mail address and strips surrounding whitespace from the value. The model describes `handleSubmit` and `handleChange` once they are called, so `ContactForm.ThreeErrorsExample` and `ContactForm.PaddedEmailInvalid` describe the handler, not what a user pressing Send sees.
- HealthRecordsPage.HealthRecordsPageState.Submit: the form's values between opening the dialog and submitting are the `form` field as it stands; the user's typing in between is not modelled.
