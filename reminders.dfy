/** The reminders page: the split of the reminder list into active and
    completed reminders, the counts and sections built from it, and the
    create form with its schema, payload and repeat choices. */
module RemindersPage {
  import opened Types
  import opened Lists

  // ------------------------------------------------------------- partition

  predicate IsActive(r: Reminder)
  {
    !r.done
  }

  predicate IsCompleted(r: Reminder)
  {
    r.done
  }

  /** `reminders.filter(r => !r.done)`. */
  function ActiveReminders(reminders: seq<Reminder>): seq<Reminder>
  {
    Filter(reminders, IsActive)
  }

  /** `reminders.filter(r => r.done)`. */
  function CompletedReminders(reminders: seq<Reminder>): seq<Reminder>
  {
    Filter(reminders, IsCompleted)
  }

  /** The active list holds exactly the reminders not done, the completed
      list exactly those done, so no reminder is in both. */
  lemma PartitionMembership(reminders: seq<Reminder>, r: Reminder)
    ensures r in ActiveReminders(reminders) <==> r in reminders && !r.done
    ensures r in CompletedReminders(reminders) <==> r in reminders && r.done
    ensures !(r in ActiveReminders(reminders) && r in CompletedReminders(reminders))
  {
  }

  /** Together the two lists hold every reminder exactly as often as the
      full list does, and their lengths add up to its length. */
  lemma PartitionIsComplete(reminders: seq<Reminder>)
    ensures multiset(ActiveReminders(reminders)) + multiset(CompletedReminders(reminders)) == multiset(reminders)
    ensures |ActiveReminders(reminders)| + |CompletedReminders(reminders)| == |reminders|
  {
    FilterSplit(reminders, IsActive, IsCompleted);
  }

  /** Each list keeps the order the reminders arrived in. */
  lemma PartitionKeepsOrder(reminders: seq<Reminder>)
    ensures IsSubsequence(ActiveReminders(reminders), reminders)
    ensures IsSubsequence(CompletedReminders(reminders), reminders)
  {
    FilterIsSubsequence(reminders, IsActive);
    FilterIsSubsequence(reminders, IsCompleted);
  }

  /** The number in the "Active Reminders" header counts the positions of
      reminders that are not done. */
  lemma ActiveHeaderCount(reminders: seq<Reminder>)
    ensures |ActiveReminders(reminders)| == |set i | 0 <= i < |reminders| && !reminders[i].done|
  {
    FilterLengthCountsIndices(reminders, IsActive);
    assert IndicesWhere(reminders, IsActive) == set i | 0 <= i < |reminders| && !reminders[i].done;
  }

  /** Whether the "Completed Reminders" section is rendered. */
  predicate ShowsCompletedSection(reminders: seq<Reminder>)
  {
    |CompletedReminders(reminders)| > 0
  }

  /** Whether the active section shows its "No active reminders" placeholder. */
  predicate ShowsNoActivePlaceholder(reminders: seq<Reminder>)
  {
    |ActiveReminders(reminders)| == 0
  }

  /** The completed section appears exactly when some reminder is done, and
      the placeholder exactly when every reminder is done. */
  lemma SectionsShown(reminders: seq<Reminder>)
    ensures ShowsCompletedSection(reminders) <==> exists i :: 0 <= i < |reminders| && reminders[i].done
    ensures ShowsNoActivePlaceholder(reminders) <==> forall i :: 0 <= i < |reminders| ==> reminders[i].done
  {
    var completed := CompletedReminders(reminders);
    if completed != [] {
      assert completed[0] in reminders;
    }
    if exists i :: 0 <= i < |reminders| && reminders[i].done {
      var i :| 0 <= i < |reminders| && reminders[i].done;
      assert reminders[i] in completed;
    }
    var active := ActiveReminders(reminders);
    if active != [] {
      assert active[0] in reminders;
    }
    if exists i :: 0 <= i < |reminders| && !reminders[i].done {
      var i :| 0 <= i < |reminders| && !reminders[i].done;
      assert reminders[i] in active;
    }
  }

  // ---------------------------------------------------------- repeat options

  /** One choice of the repeat selector. */
  datatype RepeatOption = RepeatOption(value: string, caption: string)

  const RepeatOptions: seq<RepeatOption> := [
    RepeatOption("none", "No Repeat"),
    RepeatOption("daily", "Daily"),
    RepeatOption("weekly", "Weekly"),
    RepeatOption("monthly", "Monthly")
  ]

  /** The policy offered at each position of the selector. */
  const OptionPolicies: seq<RepeatPolicy> := [NoRepeat, Daily, Weekly, Monthly]

  /** Different repeat policies have different stored values. */
  lemma PolicyNamesDistinct(p: RepeatPolicy, q: RepeatPolicy)
    requires p != q
    ensures p.Name() != q.Name()
  {
    // "none" and "monthly" share their second letter but not their length.
    assert |p.Name()| > 1 && |q.Name()| > 1;
    assert p.Name()[1] == p.SecondLetter() && q.Name()[1] == q.SecondLetter();
  }

  /** The selector offers each of the four repeat policies once, and nothing else. */
  lemma RepeatOptionsAreThePolicies()
    ensures forall p: RepeatPolicy :: p in OptionPolicies
    ensures |RepeatOptions| == |OptionPolicies| == 4
    ensures forall i :: 0 <= i < |RepeatOptions| ==> RepeatOptions[i].value == OptionPolicies[i].Name()
    ensures forall i, j :: 0 <= i < j < |RepeatOptions| ==> RepeatOptions[i].value != RepeatOptions[j].value
  {
    forall p: RepeatPolicy ensures p in OptionPolicies {
      var i := match p case NoRepeat => 0 case Daily => 1 case Weekly => 2 case Monthly => 3;
      assert OptionPolicies[i] == p;
    }
    forall i, j | 0 <= i < j < 4 ensures OptionPolicies[i].Name() != OptionPolicies[j].Name() {
      PolicyNamesDistinct(OptionPolicies[i], OptionPolicies[j]);
    }
  }

  // ------------------------------------------------------------------ form

  /** The create form after the schema's casts; `message` may be absent. */
  datatype ReminderForm = ReminderForm(title: string, message: Option<string>, remindAt: string, repeat: string)

  datatype ReminderField = TitleField | RemindAtField | RepeatField

  const TitleRequired := "Title is required"
  const RemindAtRequired := "Reminder date is required"
  const RepeatRequired := "Repeat option is required"

  /** The request body for a new reminder; the repeat string is cast without
      a check. */
  datatype ReminderPayload = ReminderPayload(title: string, message: string, remindAt: string, repeat: string)

  /** The schema's messages: each required string rejects the empty string;
      the message is never checked. */
  function ReminderFormErrors(form: ReminderForm): (errs: map<ReminderField, string>)
    ensures TitleField in errs <==> form.title == ""
    ensures RemindAtField in errs <==> form.remindAt == ""
    ensures RepeatField in errs <==> form.repeat == ""
    ensures TitleField in errs ==> errs[TitleField] == TitleRequired
    ensures RemindAtField in errs ==> errs[RemindAtField] == RemindAtRequired
    ensures RepeatField in errs ==> errs[RepeatField] == RepeatRequired
  {
    (if form.title == "" then map[TitleField := TitleRequired] else map[]) +
    (if form.remindAt == "" then map[RemindAtField := RemindAtRequired] else map[]) +
    (if form.repeat == "" then map[RepeatField := RepeatRequired] else map[])
  }

  /** `reminderData` as `onSubmit` builds it. */
  function ReminderPayloadOf(form: ReminderForm): (p: ReminderPayload)
    ensures p.title == form.title && p.remindAt == form.remindAt && p.repeat == form.repeat
    ensures form.message.Some? && form.message.value != "" ==> p.message == form.message.value
    ensures !(form.message.Some? && form.message.value != "") ==> p.message == ""
    ensures p.message == (if form.message.Some? then form.message.value else "")
  {
    ReminderPayload(form.title, if form.message.Some? && form.message.value != "" then form.message.value else "",
                    form.remindAt, form.repeat)
  }

  /** Submitting the create form: the schema's messages if it is invalid,
      otherwise the payload to create. */
  function SubmitReminder(form: ReminderForm): (r: Result<ReminderPayload, map<ReminderField, string>>)
    ensures r.Failure? <==> form.title == "" || form.remindAt == "" || form.repeat == ""
    ensures r.Failure? ==> r.error == ReminderFormErrors(form) && r.error != map[]
    ensures r.Success? ==> r.value == ReminderPayloadOf(form)
  {
    var errs := ReminderFormErrors(form);
    if errs != map[] then Failure(errs)
    else
      Success(ReminderPayloadOf(form))
  }

  /** The schema never looks at the message: changing it changes no error. */
  lemma ReminderSchemaIgnoresMessage(form: ReminderForm, message: Option<string>)
    ensures ReminderFormErrors(form.(message := message)) == ReminderFormErrors(form)
  {
  }

  /** The payload round trip: a form holding a reminder's title, the name of
      its repeat policy and its message, with some date, is accepted, and the
      payload gives back that title, that name and the message text, or ""
      when there is none. */
  lemma ReminderRoundTrip(r: Reminder, date: string)
    requires r.title != "" && date != ""
    ensures SubmitReminder(ReminderForm(r.title, r.message, date, r.repeat.Name())) ==
      Success(ReminderPayload(r.title, if r.message.Some? then r.message.value else "", date, r.repeat.Name()))
  {
    assert |r.repeat.Name()| > 0;
  }

  /** A complete form whose repeat choice came from the selector sends a
      payload that names a repeat policy and keeps the message's text. */
  lemma SubmittedRepeatIsAPolicy(form: ReminderForm, i: int)
    requires form.title != "" && form.remindAt != ""
    requires 0 <= i < |RepeatOptions| && form.repeat == RepeatOptions[i].value
    ensures SubmitReminder(form).Success?
    ensures SubmitReminder(form).value.repeat == OptionPolicies[i].Name()
    ensures SubmitReminder(form).value.message == (if form.message.Some? then form.message.value else "")
  {
    RepeatOptionsAreThePolicies();
    assert |OptionPolicies[i].Name()| > 0;
  }
}
