/**
 * The client-side reminder helpers of lib/utils/notifications.ts: the list of
 * upcoming reminders shown to the user, sorted by when they fire, the
 * display label of a slot, and the permission request that asks the browser
 * only when no decision exists yet.
 */
module Notifications {
  import opened Common
  import opened Strings
  import opened LocalClock
  import NotificationTime

  /** One upcoming reminder: which supplement, which slot, and when it next fires. */
  datatype UpcomingReminder = UpcomingReminder(
    supplementId: string,
    supplementName: string,
    timeOfDay: string,
    nextTime: int)

  /** A schedule text names one of the four slots (others are skipped). */
  predicate KnownSlot(tod: string)
  {
    ParseTimeOfDay(tod).Some?
  }

  /** How many of the schedule texts name a slot. */
  function KnownSlotCount(slots: seq<string>): nat
  {
    if |slots| == 0 then 0
    else KnownSlotCount(slots[..|slots| - 1]) + (if KnownSlot(slots[|slots| - 1]) then 1 else 0)
  }

  /** The reminder of one schedule of a supplement, if its slot is known. */
  function ReminderFor(s: SupplementWithSchedules, tod: string, now: int): (r: Option<UpcomingReminder>)
    ensures r.Some? <==> KnownSlot(tod)
    ensures r.Some? ==> r.value.supplementId == s.id && r.value.supplementName == s.name && r.value.timeOfDay == tod
    ensures r.Some? ==> now < r.value.nextTime <= now + DayMs
  {
    match ParseTimeOfDay(tod)
    case None => None
    case Some(t) => Some(UpcomingReminder(s.id, s.name, tod, NextAt(now, SlotHour(t))))
  }

  /** The reminders a supplement contributes for the schedules `slots`, in schedule order. */
  function ScheduleEntries(s: SupplementWithSchedules, slots: seq<string>, now: int): seq<UpcomingReminder>
  {
    if |slots| == 0 then []
    else
      var prev := ScheduleEntries(s, slots[..|slots| - 1], now);
      match ReminderFor(s, slots[|slots| - 1], now)
      case None => prev
      case Some(e) => prev + [e]
  }

  /** The reminders of all supplements, in the order they are pushed before sorting. */
  function Candidates(supplements: seq<SupplementWithSchedules>, now: int): seq<UpcomingReminder>
  {
    if |supplements| == 0 then []
    else
      var last := supplements[|supplements| - 1];
      Candidates(supplements[..|supplements| - 1], now)
        + (if Remindable(last) then ScheduleEntries(last, SchedulesOf(last), now) else [])
  }

  /** The number of reminders the supplements are owed: one per known schedule of each remindable one. */
  function OwedCount(supplements: seq<SupplementWithSchedules>): nat
  {
    if |supplements| == 0 then 0
    else
      var last := supplements[|supplements| - 1];
      OwedCount(supplements[..|supplements| - 1])
        + (if Remindable(last) then KnownSlotCount(SchedulesOf(last)) else 0)
  }

  /** A reminder that fires at the first `hour`:00 of its slot after `now`. */
  predicate FiresNext(e: UpcomingReminder, now: int)
  {
    KnownSlot(e.timeOfDay) && e.nextTime == NextAt(now, SlotHour(ParseTimeOfDay(e.timeOfDay).value))
  }

  /** A reminder that belongs to a remindable supplement of the list. */
  predicate FromRemindable(e: UpcomingReminder, supplements: seq<SupplementWithSchedules>)
  {
    exists i | 0 <= i < |supplements| ::
      Remindable(supplements[i]) && supplements[i].id == e.supplementId
      && supplements[i].name == e.supplementName && e.timeOfDay in SchedulesOf(supplements[i])
  }

  lemma {:induction false} ScheduleEntriesFacts(s: SupplementWithSchedules, slots: seq<string>, now: int)
    ensures |ScheduleEntries(s, slots, now)| == KnownSlotCount(slots)
    ensures forall e | e in ScheduleEntries(s, slots, now) ::
      FiresNext(e, now) && e.supplementId == s.id && e.supplementName == s.name && e.timeOfDay in slots
  {
    if |slots| > 0 {
      ScheduleEntriesFacts(s, slots[..|slots| - 1], now);
      assert forall x | x in slots[..|slots| - 1] :: x in slots;
    }
  }

  /**
   * There is exactly one reminder per known schedule of each ACTIVE,
   * non-deleted supplement; each comes from such a supplement and fires at
   * the first slot hour after now.
   */
  lemma {:induction false} CandidatesFacts(supplements: seq<SupplementWithSchedules>, now: int)
    ensures |Candidates(supplements, now)| == OwedCount(supplements)
    ensures forall e | e in Candidates(supplements, now) :: FiresNext(e, now) && FromRemindable(e, supplements)
  {
    if |supplements| > 0 {
      var n := |supplements| - 1;
      var init := supplements[..n];
      var last := supplements[n];
      CandidatesFacts(init, now);
      ScheduleEntriesFacts(last, SchedulesOf(last), now);
      forall e | e in Candidates(supplements, now)
        ensures FiresNext(e, now) && FromRemindable(e, supplements)
      {
        if e in Candidates(init, now) {
          assert FromRemindable(e, init);
          var i :| 0 <= i < |init| && Remindable(init[i]) && init[i].id == e.supplementId
            && init[i].name == e.supplementName && e.timeOfDay in SchedulesOf(init[i]);
          assert supplements[i] == init[i];
        } else {
          assert supplements[n] == last;
        }
      }
    }
  }

  /** Sorted by `nextTime`, earliest first. */
  predicate SortedByTime(s: seq<UpcomingReminder>)
  {
    forall i, j | 0 <= i < j < |s| :: s[i].nextTime <= s[j].nextTime
  }

  /** The reminders of `s` that fire at instant `t`, in their order in `s`. */
  function AtTime(s: seq<UpcomingReminder>, t: int): seq<UpcomingReminder>
  {
    if |s| == 0 then []
    else AtTime(s[..|s| - 1], t) + (if s[|s| - 1].nextTime == t then [s[|s| - 1]] else [])
  }

  /** Putting a reminder that fires no later than the first one in front keeps the order. */
  lemma ConsSorted(x: UpcomingReminder, s: seq<UpcomingReminder>)
    requires SortedByTime(s) && (|s| == 0 || x.nextTime <= s[0].nextTime)
    ensures SortedByTime([x] + s)
  {
  }

  /** Places `e` into sorted `s` after every reminder that fires no later than it. */
  function InsertByTime(e: UpcomingReminder, s: seq<UpcomingReminder>): (r: seq<UpcomingReminder>)
    requires SortedByTime(s)
    ensures |r| == |s| + 1
    ensures r[0] == e || (|s| > 0 && r[0] == s[0])
    ensures SortedByTime(r)
    ensures multiset(r) == multiset(s) + multiset{e}
  {
    if |s| == 0 then [e]
    else if e.nextTime < s[0].nextTime then
      ConsSorted(e, s);
      [e] + s
    else
      var rest := InsertByTime(e, s[1..]);
      assert s == [s[0]] + s[1..];
      ConsSorted(s[0], rest);
      [s[0]] + rest
  }

  /**
   * `results.sort((a, b) => a.nextTime - b.nextTime)`: a stable sort by fire
   * time (Array.prototype.sort is stable), as an insertion sort.
   */
  function SortByTime(s: seq<UpcomingReminder>): (r: seq<UpcomingReminder>)
    ensures SortedByTime(r)
    ensures multiset(r) == multiset(s)
  {
    if |s| == 0 then []
    else
      assert s == s[..|s| - 1] + [s[|s| - 1]];
      InsertByTime(s[|s| - 1], SortByTime(s[..|s| - 1]))
  }

  lemma {:induction false} AtTimeAppend(a: seq<UpcomingReminder>, b: seq<UpcomingReminder>, t: int)
    ensures AtTime(a + b, t) == AtTime(a, t) + AtTime(b, t)
    decreases |b|
  {
    if |b| == 0 {
      assert a + b == a;
    } else {
      AtTimeAppend(a, b[..|b| - 1], t);
      assert (a + b)[..|a + b| - 1] == a + b[..|b| - 1];
      assert (a + b)[|a + b| - 1] == b[|b| - 1];
    }
  }

  lemma {:induction false} AtTimeLater(s: seq<UpcomingReminder>, t: int)
    requires forall i | 0 <= i < |s| :: t < s[i].nextTime
    ensures AtTime(s, t) == []
  {
    if |s| > 0 {
      AtTimeLater(s[..|s| - 1], t);
    }
  }

  lemma AtTimeSingle(e: UpcomingReminder, t: int)
    ensures AtTime([e], t) == if e.nextTime == t then [e] else []
  {
    assert [e][..0] == [];
  }

  /** Inserting in front of later reminders adds `e` to the reminders of its own instant only. */
  lemma InsertInFrontStable(e: UpcomingReminder, s: seq<UpcomingReminder>, t: int)
    requires SortedByTime(s) && |s| > 0 && e.nextTime < s[0].nextTime
    ensures AtTime([e] + s, t) == AtTime(s, t) + AtTime([e], t)
  {
    AtTimeAppend([e], s, t);
    AtTimeSingle(e, t);
    if e.nextTime == t {
      AtTimeLater(s, t);
    }
  }

  /** Inserting keeps the reminders of every instant in their order, `e` after the ones already there. */
  lemma {:induction false} InsertByTimeStable(e: UpcomingReminder, s: seq<UpcomingReminder>, t: int)
    requires SortedByTime(s)
    ensures AtTime(InsertByTime(e, s), t) == AtTime(s, t) + AtTime([e], t)
  {
    if |s| == 0 {
      assert InsertByTime(e, s) == [e] && s + [e] == [e];
    } else if e.nextTime < s[0].nextTime {
      assert InsertByTime(e, s) == [e] + s;
      InsertInFrontStable(e, s, t);
    } else {
      assert SortedByTime(s[1..]);
      InsertByTimeStable(e, s[1..], t);
      InsertBehindStable(e, s, t);
    }
  }

  /** Inserting behind the first reminder: the step of the induction. */
  lemma InsertBehindStable(e: UpcomingReminder, s: seq<UpcomingReminder>, t: int)
    requires SortedByTime(s) && |s| > 0 && s[0].nextTime <= e.nextTime
    requires AtTime(InsertByTime(e, s[1..]), t) == AtTime(s[1..], t) + AtTime([e], t)
    ensures AtTime(InsertByTime(e, s), t) == AtTime(s, t) + AtTime([e], t)
  {
    var rest := s[1..];
    InsertBehindHead(e, s);
    assert s == [s[0]] + rest;
    KeepHeadStable(s[0], InsertByTime(e, rest), rest, [e], t);
  }

  /** A reminder that fires no earlier than the first one goes behind it. */
  lemma InsertBehindHead(e: UpcomingReminder, s: seq<UpcomingReminder>)
    requires SortedByTime(s) && |s| > 0 && s[0].nextTime <= e.nextTime
    ensures SortedByTime(s[1..]) && InsertByTime(e, s) == [s[0]] + InsertByTime(e, s[1..])
  {
  }

  /** A reminder kept in front adds the same reminders on both sides. */
  lemma KeepHeadStable(x: UpcomingReminder, a: seq<UpcomingReminder>, b: seq<UpcomingReminder>,
                       c: seq<UpcomingReminder>, t: int)
    requires AtTime(a, t) == AtTime(b, t) + AtTime(c, t)
    ensures AtTime([x] + a, t) == AtTime([x] + b, t) + AtTime(c, t)
  {
    AtTimeAppend([x], a, t);
    AtTimeAppend([x], b, t);
  }

  /** The sort is stable: reminders that fire at the same instant keep their push order. */
  lemma {:induction false} SortByTimeStable(s: seq<UpcomingReminder>, t: int)
    ensures AtTime(SortByTime(s), t) == AtTime(s, t)
  {
    if |s| > 0 {
      var init := s[..|s| - 1];
      SortByTimeStable(init, t);
      InsertByTimeStable(s[|s| - 1], SortByTime(init), t);
      AtTimeSingle(s[|s| - 1], t);
    }
  }

  /**
   * `getNextNotificationTimes`: nothing unless both reminder switches are on;
   * otherwise one reminder per known schedule of each ACTIVE, non-deleted
   * supplement, collected in list order and then sorted by fire time.
   */
  method GetNextNotificationTimes(
    supplements: seq<SupplementWithSchedules>,
    preferences: Option<NotificationPreferences>,
    now: int)
    returns (results: seq<UpcomingReminder>)
    ensures !RemindersOn(preferences) ==> results == []
    ensures RemindersOn(preferences) ==> results == SortByTime(Candidates(supplements, now))
    ensures SortedByTime(results)
    ensures RemindersOn(preferences) ==> multiset(results) == multiset(Candidates(supplements, now))
  {
    if !RemindersOn(preferences) {
      return [];
    }
    results := [];
    var i := 0;
    while i < |supplements|
      invariant 0 <= i <= |supplements|
      invariant results == Candidates(supplements[..i], now)
    {
      var supplement := supplements[i];
      assert supplements[..i + 1][..i] == supplements[..i];
      if Remindable(supplement) {
        var slots := SchedulesOf(supplement);
        var before := results;
        var j := 0;
        while j < |slots|
          invariant 0 <= j <= |slots|
          invariant results == before + ScheduleEntries(supplement, slots[..j], now)
        {
          assert slots[..j + 1][..j] == slots[..j];
          var entry := ReminderFor(supplement, slots[j], now);
          if entry.Some? {
            results := results + [entry.value];
          }
          j := j + 1;
        }
        assert slots[..j] == slots;
      }
      i := i + 1;
    }
    assert supplements[..i] == supplements;
    results := SortByTime(results);
  }

  /** The `formatTimeOfDay` label of a slot: its name and its clock time. */
  function SlotLabel(t: TimeOfDay): string
  {
    match t
    case Morning => "Morning (8:00 AM)"
    case Lunch => "Lunch (12:00 PM)"
    case Dinner => "Dinner (6:00 PM)"
    case BeforeSleep => "Before Sleep (10:00 PM)"
  }

  /** `formatTimeOfDay`: the label of a slot name; any other text is returned unchanged. */
  function FormatTimeOfDay(timeOfDay: string): (r: string)
    ensures ParseTimeOfDay(timeOfDay).Some? ==> r == SlotLabel(ParseTimeOfDay(timeOfDay).value)
    ensures ParseTimeOfDay(timeOfDay).None? ==> r == timeOfDay
  {
    match ParseTimeOfDay(timeOfDay)
    case Some(t) => SlotLabel(t)
    case None => timeOfDay
  }

  /** The 12-hour clock reading of a whole hour, such as "6:00 PM". */
  function TwelveHourClock(hour: nat): string
    requires hour < 24
  {
    var h := if hour % 12 == 0 then 12 else hour % 12;
    NatToString(h) + ":00 " + (if hour < 12 then "AM" else "PM")
  }

  /** The label a slot would get from its display name and its reminder hour. */
  function ComposedLabel(t: TimeOfDay): string
  {
    NotificationTime.FormatTimeOfDayLabel(t) + " (" + TwelveHourClock(SlotHour(t)) + ")"
  }

  /** The slot hours read on a 12-hour clock. */
  lemma ClockReading(t: TimeOfDay)
    ensures TwelveHourClock(SlotHour(t)) ==
      match t
      case Morning => "8:00 AM"
      case Lunch => "12:00 PM"
      case Dinner => "6:00 PM"
      case BeforeSleep => "10:00 PM"
  {
    match t
    case Morning =>
      assert NatToString(8) == [DigitChar(8)] == "8";
      HourReading(8, "8", "AM");
    case Lunch =>
      TwoDigitString(12);
      assert [DigitChar(1), DigitChar(2)] == "12";
      HourReading(12, "12", "PM");
    case Dinner =>
      assert NatToString(6) == [DigitChar(6)] == "6";
      HourReading(18, "6", "PM");
    case BeforeSleep =>
      TwoDigitString(10);
      assert [DigitChar(1), DigitChar(0)] == "10";
      HourReading(22, "10", "PM");
  }

  /** A two-digit number is written as its tens digit followed by its units digit. */
  lemma TwoDigitString(n: nat)
    requires 10 <= n < 100
    ensures NatToString(n) == [DigitChar(n / 10), DigitChar(n % 10)]
  {
    assert NatToString(n / 10) == [DigitChar(n / 10)];
  }

  /** One hour's reading, from the digits of its hour on the 12-hour dial and its half of the day. */
  lemma HourReading(hour: nat, digits: string, half: string)
    requires hour < 24 && half == (if hour < 12 then "AM" else "PM")
    requires NatToString(if hour % 12 == 0 then 12 else hour % 12) == digits
    ensures TwelveHourClock(hour) == digits + ":00 " + half
  {
  }

  /** Each label is the slot's display name followed by the hour its reminder fires, in parentheses. */
  lemma SlotLabelShowsHour(t: TimeOfDay)
    ensures SlotLabel(t) == ComposedLabel(t)
  {
    ClockReading(t);
    match t
    case Morning =>
      ComposedOf(t, "Morning", "8:00 AM");
      assert "Morning" + " (" + "8:00 AM" + ")" == "Morning (8:00 AM)";
    case Lunch =>
      ComposedOf(t, "Lunch", "12:00 PM");
      assert "Lunch" + " (" + "12:00 PM" + ")" == "Lunch (12:00 PM)";
    case Dinner =>
      ComposedOf(t, "Dinner", "6:00 PM");
      assert "Dinner" + " (" + "6:00 PM" + ")" == "Dinner (6:00 PM)";
    case BeforeSleep =>
      ComposedOf(t, "Before Sleep", "10:00 PM");
      assert "Before Sleep" + " (" + "10:00 PM" + ")" == "Before Sleep (10:00 PM)";
  }

  /** The composed label from the slot's display name and its clock reading. */
  lemma ComposedOf(t: TimeOfDay, name: string, clock: string)
    requires NotificationTime.FormatTimeOfDayLabel(t) == name && TwelveHourClock(SlotHour(t)) == clock
    ensures ComposedLabel(t) == name + " (" + clock + ")"
  {
  }

  /** A browser notification permission; `Undecided` is the browser's "default". */
  datatype Permission = Granted | Denied | Undecided

  /**
   * `requestNotificationPermission`: "denied" where notifications are not
   * supported, the current decision when there is one, and otherwise the
   * answer the browser prompt gives (`prompt`).
   */
  function RequestNotificationPermission(supported: bool, current: Permission, prompt: Permission): (r: Permission)
    ensures !supported ==> r == Denied
    ensures supported && current != Undecided ==> r == current
    ensures supported && current == Undecided ==> r == prompt
  {
    if !supported then Denied
    else
      match current
      case Granted => Granted
      case Denied => Denied
      case Undecided => prompt
  }

  /**
   * `isNotificationSupported`: the API and a service worker exist and
   * permission is granted; that is, a service worker exists and asking for
   * permission grants it whatever the prompt would answer.
   */
  function IsNotificationSupported(hasNotificationApi: bool, hasServiceWorker: bool, current: Permission): (r: bool)
    ensures r <==> (hasServiceWorker
      && forall prompt :: RequestNotificationPermission(hasNotificationApi, current, prompt) == Granted)
  {
    assert RequestNotificationPermission(hasNotificationApi, current, Denied) == Granted ==>
      hasNotificationApi && current == Granted;
    hasNotificationApi && hasServiceWorker && current == Granted
  }

  /** A decision, once made, is returned again whatever the prompt would answer. */
  lemma PermissionDecisionSticks(current: Permission, prompt: Permission, later: Permission)
    requires RequestNotificationPermission(true, current, prompt) != Undecided
    ensures RequestNotificationPermission(true, RequestNotificationPermission(true, current, prompt), later)
      == RequestNotificationPermission(true, current, prompt)
  {
  }

  /** Where notifications are supported the request grants without prompting. */
  lemma SupportedMeansGranted(hasServiceWorker: bool, current: Permission, prompt: Permission)
    requires IsNotificationSupported(true, hasServiceWorker, current)
    ensures RequestNotificationPermission(true, current, prompt) == Granted
  {
  }
}
