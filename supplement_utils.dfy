/**
 * The supplement helpers of lib/utils/supplements.ts (repeated word for word
 * in lib/supplements.ts): whether a supplement is active on a date, the
 * grouping of schedules into the four time-of-day buckets, the adherence rows
 * sent to the client, the taken/left counts, and the order of the slots.
 * `new Date(text)` is a parameter giving a time value, or nothing for an
 * invalid date.
 */
module SupplementUtils {
  import opened Common
  import opened Strings
  import opened JsText

  // ---------------------------------------------------------------------------
  // Active on a date
  // ---------------------------------------------------------------------------

  /** The fields `isSupplementActiveOnDate` reads; a missing or null end date is `None`. */
  datatype SupplementDates = SupplementDates(startDate: string, endDate: Option<string>, status: SupplementStatus)

  /** `a < b` on two Date objects: false as soon as either is an invalid date. */
  predicate Before(a: Option<int>, b: Option<int>)
  {
    a.Some? && b.Some? && a.value < b.value
  }

  /**
   * `isSupplementActiveOnDate`: only an ACTIVE supplement, and only when the
   * date is not before the start and, with an end date, not after the end.
   */
  function IsSupplementActiveOnDate(s: SupplementDates, date: string, parseDate: string -> Option<int>): (r: bool)
    ensures s.status != Active ==> !r
    ensures var check := parseDate(date); var start := parseDate(s.startDate);
      s.status == Active && check.Some? && start.Some? && !TruthyStr(s.endDate) ==>
        (r <==> start.value <= check.value)
    ensures var check := parseDate(date); var start := parseDate(s.startDate);
      s.status == Active && check.Some? && start.Some? && TruthyStr(s.endDate) && parseDate(s.endDate.value).Some? ==>
        (r <==> start.value <= check.value <= parseDate(s.endDate.value).value)
  {
    if s.status != Active then false
    else
      var checkDate := parseDate(date);
      var startDate := parseDate(s.startDate);
      if Before(checkDate, startDate) then false
      else if TruthyStr(s.endDate) && Before(parseDate(s.endDate.value), checkDate) then false
      else true
  }

  /**
   * Comparisons with an invalid date are false, so an ACTIVE supplement is
   * active on a date that does not parse, whatever its start and end.
   */
  lemma UnparseableDateCountsAsActive(s: SupplementDates, date: string, parseDate: string -> Option<int>)
    requires s.status == Active && parseDate(date).None?
    ensures IsSupplementActiveOnDate(s, date, parseDate)
  {
  }

  /** The first and last days are included. */
  lemma ActiveOnBothEnds(s: SupplementDates, parseDate: string -> Option<int>)
    requires s.status == Active && TruthyStr(s.endDate)
    requires parseDate(s.startDate).Some? && parseDate(s.endDate.value).Some?
    requires parseDate(s.startDate).value <= parseDate(s.endDate.value).value
    ensures IsSupplementActiveOnDate(s, s.startDate, parseDate)
    ensures IsSupplementActiveOnDate(s, s.endDate.value, parseDate)
  {
  }

  // ---------------------------------------------------------------------------
  // Grouping schedules by time of day
  // ---------------------------------------------------------------------------

  /** A schedule row as the helper receives it: any object. */
  type Schedule = map<string, JsValue>

  /**
   * The properties every plain object inherits from Object.prototype. Looking
   * one of them up on the bucket record gives a truthy value that has no
   * `push`, so pushing onto it throws.
   */
  const InheritedKeys: set<string> := {
    "constructor", "__proto__", "hasOwnProperty", "isPrototypeOf", "propertyIsEnumerable",
    "toString", "valueOf", "toLocaleString",
    "__defineGetter__", "__defineSetter__", "__lookupGetter__", "__lookupSetter__"
  }

  /** Where one schedule goes: into a bucket, nowhere, or into an inherited property (a TypeError). */
  datatype Placement = Into(slot: TimeOfDay) | Dropped | PushOnInherited

  /**
   * A falsy `time_of_day` is dropped; otherwise the value, read as a property
   * key, picks a bucket when it names a slot, and is dropped unless it names an
   * inherited property.
   */
  function PlacementOf(schedule: Schedule, numText: real -> string): (p: Placement)
    ensures Field(schedule, "time_of_day").JStr? && p.Into? ==>
      TimeOfDayName(p.slot) == Field(schedule, "time_of_day").s
    ensures !Truthy(Field(schedule, "time_of_day")) ==> p == Dropped
  {
    var timeOfDay := Field(schedule, "time_of_day");
    if !Truthy(timeOfDay) then Dropped
    else
      var key := JsToString(timeOfDay, numText);
      match ParseTimeOfDay(key)
      case Some(t) => Into(t)
      case None => if key in InheritedKeys then PushOnInherited else Dropped
  }

  /** `PlacementOf` as a function of the schedule alone, for a given rendering of numbers. */
  function Placements(numText: real -> string): Schedule -> Placement
  {
    s => PlacementOf(s, numText)
  }

  /** The schedules that `place` puts into slot `t`, in input order. */
  function Bucket(schedules: seq<Schedule>, t: TimeOfDay, place: Schedule -> Placement): (r: seq<Schedule>)
    ensures |r| <= |schedules|
    ensures forall i | 0 <= i < |r| :: place(r[i]) == Into(t)
  {
    if |schedules| == 0 then []
    else
      var last := schedules[|schedules| - 1];
      Bucket(schedules[..|schedules| - 1], t, place) + (if place(last) == Into(t) then [last] else [])
  }

  /** A schedule is in bucket `t` exactly when it is one of the input schedules placed there. */
  lemma {:induction false} BucketMembership(schedules: seq<Schedule>, t: TimeOfDay, place: Schedule -> Placement, x: Schedule)
    ensures x in Bucket(schedules, t, place) <==> x in schedules && place(x) == Into(t)
    decreases |schedules|
  {
    if |schedules| > 0 {
      var init := schedules[..|schedules| - 1];
      BucketMembership(init, t, place, x);
      assert schedules == init + [schedules[|schedules| - 1]];
    }
  }

  /** The number of schedules that land in some bucket. */
  function PlacedCount(schedules: seq<Schedule>, place: Schedule -> Placement): (n: nat)
    ensures n <= |schedules|
  {
    if |schedules| == 0 then 0
    else
      PlacedCount(schedules[..|schedules| - 1], place)
      + (if place(schedules[|schedules| - 1]).Into? then 1 else 0)
  }

  /** The four buckets together hold each placed schedule once. */
  lemma {:induction false} BucketsPartition(schedules: seq<Schedule>, place: Schedule -> Placement)
    ensures |Bucket(schedules, Morning, place)| + |Bucket(schedules, Lunch, place)|
      + |Bucket(schedules, Dinner, place)| + |Bucket(schedules, BeforeSleep, place)|
      == PlacedCount(schedules, place)
    decreases |schedules|
  {
    if |schedules| > 0 {
      BucketsPartition(schedules[..|schedules| - 1], place);
      var p := place(schedules[|schedules| - 1]);
      assert p.Into? ==> p.slot.Morning? || p.slot.Lunch? || p.slot.Dinner? || p.slot.BeforeSleep?;
    }
  }

  /** Taking one more schedule into account appends it to its own bucket only. */
  lemma BucketStep(schedules: seq<Schedule>, i: nat, t: TimeOfDay, place: Schedule -> Placement)
    requires i < |schedules|
    ensures Bucket(schedules[..i + 1], t, place)
      == Bucket(schedules[..i], t, place) + (if place(schedules[i]) == Into(t) then [schedules[i]] else [])
  {
    assert schedules[..i + 1][..i] == schedules[..i];
  }

  predicate ThrowsAt(schedules: seq<Schedule>, place: Schedule -> Placement, i: nat)
    requires i < |schedules|
  {
    place(schedules[i]).PushOnInherited?
  }

  /**
   * `groupScheduleByTimeOfDay`: the four buckets, each holding its schedules
   * in input order; a schedule whose `time_of_day` names an inherited
   * property makes the push throw.
   */
  method GroupScheduleByTimeOfDay(schedules: seq<Schedule>, numText: real -> string)
    returns (r: Outcome<map<TimeOfDay, seq<Schedule>>>)
    ensures r.Threw? <==> exists i | 0 <= i < |schedules| :: ThrowsAt(schedules, Placements(numText), i)
    ensures r.Returned? ==> forall t :: t in r.value && r.value[t] == Bucket(schedules, t, Placements(numText))
  {
    r := GroupBySlot(schedules, Placements(numText));
  }

  /**
   * The loop of `groupScheduleByTimeOfDay`, for any way `place` of resolving
   * a schedule's `time_of_day` against the bucket record.
   */
  method GroupBySlot(schedules: seq<Schedule>, place: Schedule -> Placement)
    returns (r: Outcome<map<TimeOfDay, seq<Schedule>>>)
    ensures r.Threw? <==> exists i | 0 <= i < |schedules| :: ThrowsAt(schedules, place, i)
    ensures r.Returned? ==> forall t :: t in r.value && r.value[t] == Bucket(schedules, t, place)
  {
    var grouped := map[Morning := [], Lunch := [], Dinner := [], BeforeSleep := []];
    forall t ensures t in grouped && grouped[t] == Bucket(schedules[..0], t, place) {
      assert t.Morning? || t.Lunch? || t.Dinner? || t.BeforeSleep?;
    }
    for i := 0 to |schedules|
      invariant forall t :: t in grouped && grouped[t] == Bucket(schedules[..i], t, place)
      invariant forall j | 0 <= j < i :: !ThrowsAt(schedules, place, j)
    {
      var schedule := schedules[i];
      var placement := place(schedule);
      if placement.PushOnInherited? {
        assert ThrowsAt(schedules, place, i);
        return Threw("TypeError: grouped[schedule.time_of_day].push is not a function");
      }
      if placement.Into? {
        grouped := grouped[placement.slot := grouped[placement.slot] + [schedule]];
      }
      forall t ensures t in grouped && grouped[t] == Bucket(schedules[..i + 1], t, place) {
        BucketStep(schedules, i, t, place);
      }
    }
    assert schedules[..|schedules|] == schedules;
    r := Returned(grouped);
  }

  // ---------------------------------------------------------------------------
  // Adherence rows and their counts
  // ---------------------------------------------------------------------------

  /** A formatted adherence row. */
  datatype AdherenceView = AdherenceView(
    supplementId: JsValue,
    scheduleId: JsValue,
    name: JsValue,
    capsulesPerTake: JsValue,
    recommendation: JsValue,
    sourceName: JsValue,
    sourceUrl: JsValue,
    isTaken: bool)

  /** `v || ""`. */
  function OrEmpty(v: JsValue): (r: JsValue)
    ensures Truthy(v) ==> r == v
    ensures !Truthy(v) ==> r == JStr("")
  {
    if Truthy(v) then v else JStr("")
  }

  /** One row of `formatAdherenceData`. */
  function FormatAdherenceRow(row: map<string, JsValue>): (r: AdherenceView)
    ensures r.isTaken <==> Truthy(Field(row, "adherence_id"))
    ensures r.supplementId == Field(row, "supplement_id") && r.scheduleId == Field(row, "schedule_id")
    ensures r.name == Field(row, "name") && r.capsulesPerTake == Field(row, "capsules_per_take")
    ensures r.recommendation == OrEmpty(Field(row, "recommendation"))
    ensures r.sourceName == OrEmpty(Field(row, "source_name"))
    ensures r.sourceUrl == OrEmpty(Field(row, "source_url"))
  {
    AdherenceView(
      Field(row, "supplement_id"),
      Field(row, "schedule_id"),
      Field(row, "name"),
      Field(row, "capsules_per_take"),
      OrEmpty(Field(row, "recommendation")),
      OrEmpty(Field(row, "source_name")),
      OrEmpty(Field(row, "source_url")),
      Truthy(Field(row, "adherence_id")))
  }

  /** `formatAdherenceData`: each row formatted, in order. */
  function FormatAdherenceData(rows: seq<map<string, JsValue>>): (r: seq<AdherenceView>)
    ensures |r| == |rows|
    ensures forall i | 0 <= i < |rows| :: r[i] == FormatAdherenceRow(rows[i])
  {
    seq(|rows|, i requires 0 <= i < |rows| => FormatAdherenceRow(rows[i]))
  }

  /** The optional text fields of a formatted row are either truthy or exactly "". */
  lemma FormattedTextNeverFalsy(row: map<string, JsValue>)
    ensures var v := FormatAdherenceRow(row);
      (Truthy(v.recommendation) || v.recommendation == JStr(""))
      && (Truthy(v.sourceName) || v.sourceName == JStr(""))
      && (Truthy(v.sourceUrl) || v.sourceUrl == JStr(""))
  {
  }

  /** The number of rows marked taken. */
  function TakenCount(rows: seq<AdherenceView>): (n: nat)
    ensures n <= |rows|
    ensures n == 0 <==> forall i | 0 <= i < |rows| :: !rows[i].isTaken
    ensures n == |rows| <==> forall i | 0 <= i < |rows| :: rows[i].isTaken
  {
    if |rows| == 0 then 0
    else TakenCount(rows[..|rows| - 1]) + (if rows[|rows| - 1].isTaken then 1 else 0)
  }

  datatype ScheduleStats = ScheduleStats(total: int, taken: int, left: int)

  /** `calculateScheduleStats`: how many rows, how many taken, how many left. */
  function CalculateScheduleStats(rows: seq<AdherenceView>): (r: ScheduleStats)
    ensures r.total == |rows| && r.taken == TakenCount(rows)
    ensures r.taken + r.left == r.total
    ensures 0 <= r.left <= r.total
    ensures r.left == 0 <==> forall i | 0 <= i < |rows| :: rows[i].isTaken
  {
    var total := |rows|;
    var taken := TakenCount(rows);
    ScheduleStats(total, taken, total - taken)
  }

  /** Over formatted rows, "taken" counts the rows that carry an adherence id. */
  lemma {:induction false} StatsCountAdherenceIds(rows: seq<map<string, JsValue>>)
    ensures CalculateScheduleStats(FormatAdherenceData(rows)).taken == AdherenceIdCount(rows)
    decreases |rows|
  {
    if |rows| > 0 {
      var init := rows[..|rows| - 1];
      StatsCountAdherenceIds(init);
      assert FormatAdherenceData(rows)[..|rows| - 1] == FormatAdherenceData(init);
    }
  }

  function AdherenceIdCount(rows: seq<map<string, JsValue>>): nat
  {
    if |rows| == 0 then 0
    else AdherenceIdCount(rows[..|rows| - 1]) + (if Truthy(Field(rows[|rows| - 1], "adherence_id")) then 1 else 0)
  }

  // ---------------------------------------------------------------------------
  // Slot order
  // ---------------------------------------------------------------------------

  /** `getTimeOfDayOrder`: the slot's position in the day, 1 to 4. */
  function GetTimeOfDayOrder(t: TimeOfDay): (r: int)
    ensures 1 <= r <= 4 && AllTimesOfDay[r - 1] == t
  {
    match t
    case Morning => 1
    case Lunch => 2
    case Dinner => 3
    case BeforeSleep => 4
  }

  /** The order follows the day: morning, lunch, dinner, before sleep. */
  lemma TimeOfDayOrderIncreasing(i: nat, j: nat)
    requires i < j < |AllTimesOfDay|
    ensures GetTimeOfDayOrder(AllTimesOfDay[i]) < GetTimeOfDayOrder(AllTimesOfDay[j])
  {
  }
}
