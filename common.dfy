/**
 * Shared vocabulary of the pills-me core: optional values, the enums of the
 * database schema (lib/supabase/database.types.ts) and the JavaScript values
 * that request bodies and parsed JSON carry.
 */
module Common {

  datatype Option<T> = None | Some(value: T)

  /** An octet of a BLE packet, a token or a digest. */
  type Byte = b: int | 0 <= b < 256

  /** The `time_of_day` enum of the database schema. */
  datatype TimeOfDay = Morning | Lunch | Dinner | BeforeSleep

  /** The `supplement_status` enum. */
  datatype SupplementStatus = Active | CompletedSupplement | Cancelled

  /** The `report_status` enum of biomarker reports. */
  datatype ReportStatus = Extracting | Verifying | Saving | Completed | Canceled | Unmatched

  const AllTimesOfDay: seq<TimeOfDay> := [Morning, Lunch, Dinner, BeforeSleep]

  /** The enum label as stored in the database and sent over the wire. */
  function TimeOfDayName(t: TimeOfDay): string
  {
    match t
    case Morning => "MORNING"
    case Lunch => "LUNCH"
    case Dinner => "DINNER"
    case BeforeSleep => "BEFORE_SLEEP"
  }

  /** Reads an enum label back; any other text is not a time of day. */
  function ParseTimeOfDay(s: string): (r: Option<TimeOfDay>)
    ensures r.Some? ==> TimeOfDayName(r.value) == s
    ensures r.None? ==> forall t :: TimeOfDayName(t) != s
  {
    if s == "MORNING" then Some(Morning)
    else if s == "LUNCH" then Some(Lunch)
    else if s == "DINNER" then Some(Dinner)
    else if s == "BEFORE_SLEEP" then Some(BeforeSleep)
    else None
  }

  lemma TimeOfDayNameRoundTrip(t: TimeOfDay)
    ensures ParseTimeOfDay(TimeOfDayName(t)) == Some(t)
  {
  }

  /**
   * The local hour at which each slot's reminder is due; the same table
   * appears in lib/utils/notifications-time.ts, public/sw.js,
   * lib/utils/notifications.ts and the adherence toggle route.
   */
  function SlotHour(t: TimeOfDay): (h: nat)
    ensures h < 24
  {
    match t
    case Morning => 8
    case Lunch => 12
    case Dinner => 18
    case BeforeSleep => 22
  }

  function SupplementStatusName(s: SupplementStatus): string
  {
    match s
    case Active => "ACTIVE"
    case CompletedSupplement => "COMPLETED"
    case Cancelled => "CANCELLED"
  }

  /** A JavaScript value as it arrives in a request body or parsed JSON. */
  datatype JsValue =
    | JUndefined
    | JNull
    | JBool(b: bool)
    | JNum(n: real)
    | JStr(s: string)
    | JArray(items: seq<JsValue>)
    | JObject(fields: map<string, JsValue>)

  /**
   * JavaScript truthiness: `undefined`, `null`, `false`, `0` and `""` are
   * falsy; arrays and objects, even empty ones, are truthy.
   */
  predicate Truthy(v: JsValue)
  {
    match v
    case JUndefined => false
    case JNull => false
    case JBool(b) => b
    case JNum(n) => n != 0.0
    case JStr(s) => s != ""
    case JArray(_) => true
    case JObject(_) => true
  }

  /** Looks a property up; a missing property reads as `undefined`. */
  function Field(o: map<string, JsValue>, key: string): (v: JsValue)
    ensures key !in o ==> v == JUndefined
  {
    if key in o then o[key] else JUndefined
  }

  /** The `a ?? b` of optional values. */
  function OrElse<T>(a: Option<T>, b: Option<T>): (r: Option<T>)
    ensures a.Some? ==> r == a
    ensures a.None? ==> r == b
  {
    if a.Some? then a else b
  }

  /** The outcome of a call that may throw: the value it returned, or the message of the error it threw. */
  datatype Outcome<T> = Returned(value: T) | Threw(message: string)

  /** A string that may be absent, read with JavaScript truthiness: present and non-empty. */
  predicate TruthyStr(s: Option<string>)
  {
    s.Some? && s.value != ""
  }

  /** The reminder switches of a user's `notification_preferences` row. */
  datatype NotificationPreferences = NotificationPreferences(systemEnabled: bool, remindersEnabled: bool)

  /** Reminders go out only when preferences exist and both switches are on. */
  predicate RemindersOn(p: Option<NotificationPreferences>)
  {
    p.Some? && p.value.systemEnabled && p.value.remindersEnabled
  }

  /**
   * A supplement row joined with its schedules, as the reminder code receives
   * it: each schedule is its `time_of_day` text, and `schedules` may be absent.
   */
  datatype SupplementWithSchedules = SupplementWithSchedules(
    id: string,
    name: string,
    status: SupplementStatus,
    deletedAt: Option<string>,
    schedules: Option<seq<string>>)

  /** Only ACTIVE supplements that are not soft-deleted get reminders. */
  predicate Remindable(s: SupplementWithSchedules)
  {
    s.status == Active && !TruthyStr(s.deletedAt)
  }

  /** The schedules of a supplement; an absent list has none. */
  function SchedulesOf(s: SupplementWithSchedules): seq<string>
  {
    if s.schedules.Some? then s.schedules.value else []
  }
}
