/** The dashboard: the next three upcoming reminders, the three most recent
    health records (found by sorting the records array itself, in place),
    and the three summary counts. The current time and the calendar month of
    a timestamp are parameters. */
module DashboardPage {
  import opened Types
  import opened Lists
  import RemindersPage

  // --------------------------------------------------------------- upcoming

  /** The filter condition: not done and due strictly after `now`. */
  predicate IsUpcoming(r: Reminder, now: Timestamp)
  {
    !r.done && r.remindAt > now
  }

  /** The sort key of the upcoming list: earliest first. */
  function ByRemindAt(r: Reminder): int
  {
    r.remindAt
  }

  /** The reminders that qualify, in their original order. */
  function Qualifying(reminders: seq<Reminder>, now: Timestamp): seq<Reminder>
  {
    Filter(reminders, (r: Reminder) => IsUpcoming(r, now))
  }

  /** `upcomingReminders`: qualifying reminders, sorted by due time, first three. */
  function UpcomingReminders(reminders: seq<Reminder>, now: Timestamp): seq<Reminder>
  {
    Take(SortByKey(Qualifying(reminders, now), ByRemindAt), 3)
  }

  /** Every upcoming reminder is one of the reminders, not done, and due after `now`. */
  lemma UpcomingQualify(reminders: seq<Reminder>, now: Timestamp)
    ensures forall r :: r in UpcomingReminders(reminders, now) ==>
      r in reminders && !r.done && r.remindAt > now
  {
    var q := Qualifying(reminders, now);
    var sorted := SortByKey(q, ByRemindAt);
    SortByKeyPermutes(q, ByRemindAt);
    TakeIsPrefix(sorted, 3);
    forall r | r in UpcomingReminders(reminders, now)
      ensures r in reminders && !r.done && r.remindAt > now
    {
      assert r in multiset(sorted);
    }
  }

  /** The upcoming list is in ascending order of due time, is the start of
      the sorted qualifying list, and has three entries or all of them if
      fewer qualify. */
  lemma UpcomingShape(reminders: seq<Reminder>, now: Timestamp)
    ensures var up := UpcomingReminders(reminders, now);
      var sorted := SortByKey(Qualifying(reminders, now), ByRemindAt);
      && SortedBy(up, ByRemindAt)
      && |up| == (if |Qualifying(reminders, now)| <= 3 then |Qualifying(reminders, now)| else 3)
      && up == sorted[..|up|]
  {
    var sorted := SortByKey(Qualifying(reminders, now), ByRemindAt);
    SortByKeySorted(Qualifying(reminders, now), ByRemindAt);
    TakeIsPrefix(sorted, 3);
  }

  /** Reminders due at the same time keep the order they arrived in: the
      sorted qualifying list, of which the upcoming list is the start, lists
      each due time's reminders exactly as the qualifying list does. */
  lemma UpcomingTiesInInputOrder(reminders: seq<Reminder>, now: Timestamp, t: int)
    ensures KeyClass(SortByKey(Qualifying(reminders, now), ByRemindAt), ByRemindAt, t) ==
            KeyClass(Qualifying(reminders, now), ByRemindAt, t)
  {
    SortByKeyStable(Qualifying(reminders, now), ByRemindAt);
  }

  /** Every qualifying reminder left out of the upcoming list is due no
      earlier than the last one in it. */
  lemma UpcomingAreEarliest(reminders: seq<Reminder>, now: Timestamp)
    ensures var up := UpcomingReminders(reminders, now);
      var sorted := SortByKey(Qualifying(reminders, now), ByRemindAt);
      forall i :: |up| <= i < |sorted| ==> up[|up| - 1].remindAt <= sorted[i].remindAt
  {
    var sorted := SortByKey(Qualifying(reminders, now), ByRemindAt);
    SortByKeySorted(Qualifying(reminders, now), ByRemindAt);
    TakeIsPrefix(sorted, 3);
  }

  // ----------------------------------------------------------------- recent

  /** The sort key of the recent list: newest first. */
  function NewestFirst(r: HealthRecord): int
  {
    -r.createdAt
  }

  /** `recentRecords` as a value: the records newest first, first three. */
  function RecentRecords(records: seq<HealthRecord>): seq<HealthRecord>
  {
    Take(SortByKey(records, NewestFirst), 3)
  }

  /** The records reordered by the in-place sort are the same records, in
      order of descending creation time; the recent list is their start, with
      three entries or all of them if there are fewer. */
  lemma RecentShape(records: seq<HealthRecord>)
    ensures var sorted := SortByKey(records, NewestFirst);
      && multiset(sorted) == multiset(records)
      && (forall i, j :: 0 <= i < j < |sorted| ==> sorted[i].createdAt >= sorted[j].createdAt)
      && RecentRecords(records) == sorted[..|RecentRecords(records)|]
      && |RecentRecords(records)| == (if |records| <= 3 then |records| else 3)
  {
    var sorted := SortByKey(records, NewestFirst);
    SortByKeyPermutes(records, NewestFirst);
    SortByKeySorted(records, NewestFirst);
    forall i, j | 0 <= i < j < |sorted| ensures sorted[i].createdAt >= sorted[j].createdAt {
      assert NewestFirst(sorted[i]) <= NewestFirst(sorted[j]);
    }
    TakeIsPrefix(sorted, 3);
  }

  // ------------------------------------------------------------------ stats

  /** "Total Records". */
  function TotalRecords(records: seq<HealthRecord>): nat
  {
    |records|
  }

  /** "Active Reminders": how many reminders are not done. */
  function ActiveReminderCount(reminders: seq<Reminder>): nat
  {
    |Filter(reminders, (r: Reminder) => !r.done)|
  }

  /** "This Month": how many records were created in the calendar month that
      `now` is in, comparing the month number only. */
  function ThisMonthCount(records: seq<HealthRecord>, monthOf: Timestamp -> int, now: Timestamp): nat
  {
    |Filter(records, (r: HealthRecord) => monthOf(r.createdAt) == monthOf(now))|
  }

  /** The active count is the number of positions holding a reminder that is
      not done, which is also the length of the reminders page's active list. */
  lemma ActiveCountMeaning(reminders: seq<Reminder>)
    ensures ActiveReminderCount(reminders) == |set i | 0 <= i < |reminders| && !reminders[i].done|
    ensures ActiveReminderCount(reminders) == |RemindersPage.ActiveReminders(reminders)|
  {
    var notDone := (r: Reminder) => !r.done;
    FilterLengthCountsIndices(reminders, notDone);
    assert IndicesWhere(reminders, notDone) == set i | 0 <= i < |reminders| && !reminders[i].done;
    FilterSame(reminders, notDone, RemindersPage.IsActive);
  }

  /** The month count is the number of positions holding a record created in
      the same month number as `now`. */
  lemma ThisMonthMeaning(records: seq<HealthRecord>, monthOf: Timestamp -> int, now: Timestamp)
    ensures ThisMonthCount(records, monthOf, now) ==
      |set i | 0 <= i < |records| && monthOf(records[i].createdAt) == monthOf(now)|
  {
    var sameMonth := (r: HealthRecord) => monthOf(r.createdAt) == monthOf(now);
    FilterLengthCountsIndices(records, sameMonth);
    assert IndicesWhere(records, sameMonth) ==
      set i | 0 <= i < |records| && monthOf(records[i].createdAt) == monthOf(now);
  }

  /** The count consults only each record's month number: moving records
      to other timestamps with the same month number, in this year or any
      other, leaves it unchanged. */
  lemma ThisMonthIgnoresYear(records: seq<HealthRecord>, moved: seq<HealthRecord>,
                             monthOf: Timestamp -> int, now: Timestamp)
    requires |moved| == |records|
    requires forall i :: 0 <= i < |records| ==> monthOf(moved[i].createdAt) == monthOf(records[i].createdAt)
    ensures ThisMonthCount(moved, monthOf, now) == ThisMonthCount(records, monthOf, now)
  {
    ThisMonthMeaning(records, monthOf, now);
    ThisMonthMeaning(moved, monthOf, now);
    assert (set i | 0 <= i < |moved| && monthOf(moved[i].createdAt) == monthOf(now)) ==
      (set i | 0 <= i < |records| && monthOf(records[i].createdAt) == monthOf(now));
  }

  /** The counts do not depend on the order of the lists, so sorting the
      records in place before counting changes none of them. */
  lemma StatsIgnoreOrder(records: seq<HealthRecord>, reordered: seq<HealthRecord>,
                         monthOf: Timestamp -> int, now: Timestamp)
    requires multiset(reordered) == multiset(records)
    ensures TotalRecords(reordered) == TotalRecords(records)
    ensures ThisMonthCount(reordered, monthOf, now) == ThisMonthCount(records, monthOf, now)
  {
    assert |reordered| == |multiset(reordered)| == |multiset(records)| == |records|;
    FilterCountPermutation(reordered, records, (r: HealthRecord) => monthOf(r.createdAt) == monthOf(now));
  }

  // ------------------------------------------------------------------ page

  /** The three numbers of the stats row. */
  datatype Stats = Stats(totalRecords: nat, activeReminders: nat, thisMonth: nat)

  /** The page's state: the two fetched lists, held as arrays because the
      recent-records computation reorders `records` where it lies. */
  class Dashboard {
    var records: array<HealthRecord>
    var reminders: array<Reminder>

    constructor (fetchedRecords: seq<HealthRecord>, fetchedReminders: seq<Reminder>)
      ensures records[..] == fetchedRecords && reminders[..] == fetchedReminders
      ensures fresh(records) && fresh(reminders)
    {
      records := new HealthRecord[|fetchedRecords|](i requires 0 <= i < |fetchedRecords| => fetchedRecords[i]);
      reminders := new Reminder[|fetchedReminders|](i requires 0 <= i < |fetchedReminders| => fetchedReminders[i]);
    }

    /** `upcomingReminders`: the filter copies the qualifying reminders into a
        new array, which is sorted in place and cut to three. The reminders
        array itself is not touched. */
    method ComputeUpcoming(now: Timestamp) returns (upcoming: seq<Reminder>)
      ensures upcoming == UpcomingReminders(reminders[..], now)
    {
      var qualifying := Qualifying(reminders[..], now);
      var buffer := new Reminder[|qualifying|](i requires 0 <= i < |qualifying| => qualifying[i]);
      assert buffer[..] == qualifying;
      StableSortInPlace(buffer, ByRemindAt);
      upcoming := Take(buffer[..], 3);
    }

    /** `recentRecords`: sorts `records` itself newest first, then takes the
        first three. */
    method ComputeRecent() returns (recent: seq<HealthRecord>)
      modifies records
      ensures records[..] == SortByKey(old(records[..]), NewestFirst)
      ensures recent == RecentRecords(old(records[..]))
    {
      StableSortInPlace(records, NewestFirst);
      recent := Take(records[..], 3);
    }

    /** `stats`, read from the arrays as they are. */
    method ComputeStats(monthOf: Timestamp -> int, now: Timestamp) returns (stats: Stats)
      ensures stats == Stats(TotalRecords(records[..]), ActiveReminderCount(reminders[..]),
                             ThisMonthCount(records[..], monthOf, now))
      ensures stats.totalRecords == records.Length
      ensures stats.activeReminders == |set i | 0 <= i < reminders.Length && !reminders[i].done|
      ensures stats.thisMonth ==
        |set i | 0 <= i < records.Length && monthOf(records[i].createdAt) == monthOf(now)|
    {
      ActiveCountMeaning(reminders[..]);
      ThisMonthMeaning(records[..], monthOf, now);
      var rs, ms := records[..], reminders[..];
      assert (set i | 0 <= i < |ms| && !ms[i].done) ==
             (set i | 0 <= i < reminders.Length && !reminders[i].done);
      assert (set i | 0 <= i < |rs| && monthOf(rs[i].createdAt) == monthOf(now)) ==
             (set i | 0 <= i < records.Length && monthOf(records[i].createdAt) == monthOf(now));
      stats := Stats(TotalRecords(records[..]), ActiveReminderCount(reminders[..]),
                     ThisMonthCount(records[..], monthOf, now));
    }

    /** One render: upcoming, then recent (which reorders `records`), then the
        stats over the reordered array, which equal the stats over the
        fetched order. */
    method Render(monthOf: Timestamp -> int, now: Timestamp)
      returns (upcoming: seq<Reminder>, recent: seq<HealthRecord>, stats: Stats)
      modifies records
      ensures upcoming == UpcomingReminders(reminders[..], now)
      ensures recent == RecentRecords(old(records[..]))
      ensures records[..] == SortByKey(old(records[..]), NewestFirst)
      ensures stats == Stats(TotalRecords(old(records[..])), ActiveReminderCount(reminders[..]),
                             ThisMonthCount(old(records[..]), monthOf, now))
    {
      upcoming := ComputeUpcoming(now);
      ghost var fetched := records[..];
      recent := ComputeRecent();
      SortByKeyPermutes(fetched, NewestFirst);
      StatsIgnoreOrder(fetched, records[..], monthOf, now);
      stats := ComputeStats(monthOf, now);
    }
  }
}
