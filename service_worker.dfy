/**
 * The service worker of public/sw.js: how a push message becomes a shown
 * notification and where it leads, what a click on a notification opens,
 * and the per-supplement reminder timers it keeps between messages from the
 * page.
 */
module ServiceWorker {
  import opened Common
  import opened Strings
  import opened LocalClock
  import NotificationTime
  import JsText

  const AppIcon: string := "/icon-192x192.png"
  const DefaultTitle: string := "Pills-Me"
  const DefaultBody: string := "You have a new notification"
  const DefaultTag: string := "pills-me-notification"
  const TodosUrl: string := "/todos"
  const SupplementsPath: string := "/supplements/"

  /** `s || fallback` for an optional string. */
  function OrDefault(s: Option<string>, fallback: string): (r: string)
    ensures TruthyStr(s) ==> r == s.value
    ensures !TruthyStr(s) ==> r == fallback
  {
    if TruthyStr(s) then s.value else fallback
  }

  /**
   * A supplement id read from a JavaScript value as a template literal
   * renders it: present exactly when the value is truthy, whatever its type,
   * and then as `String(v)`; a non-empty string stays itself.
   */
  function IdText(v: JsValue, numText: real -> string): (r: Option<string>)
    ensures r.Some? <==> Truthy(v)
    ensures v.JStr? && v.s != "" ==> r == Some(v.s)
    ensures v.JNum? && v.n != 0.0 ==> r == Some(numText(v.n))
  {
    if Truthy(v) then Some(JsText.JsToString(v, numText)) else None
  }

  /** The parsed JSON of a push message: the fields the handler reads, and `data` as sent. */
  datatype PushData = PushData(
    title: Option<string>,
    body: Option<string>,
    icon: Option<string>,
    id: Option<string>,
    url: Option<string>,
    tag: Option<string>,
    supplementId: JsValue,
    data: map<string, JsValue>,
    actions: Option<seq<string>>,
    requireInteraction: bool,
    silent: bool)

  /** A push event: without a payload, with one that does not parse as JSON, or with parsed data. */
  datatype PushEvent = NoPayload | Unparseable | Payload(push: PushData)

  /** The options a notification is shown with, and its title. */
  datatype ShownNotification = ShownNotification(
    title: string,
    body: string,
    icon: string,
    badge: string,
    tag: Option<string>,
    data: map<string, JsValue>,
    actions: seq<string>,
    requireInteraction: bool,
    silent: bool)

  /** A notification tag that marks a refill reminder. */
  predicate IsRefillTag(tag: Option<string>)
  {
    TruthyStr(tag) && Contains(tag.value, "refill")
  }

  /**
   * Where a push notification leads: its explicit url if set; for a refill
   * tag the detail page of the supplement named by `data.supplementId` or
   * else the top-level `supplementId`, whichever is truthy first, printed
   * as JavaScript prints it (numbers through `numText`); everything else
   * goes to the to-do list.
   */
  function PushRedirect(d: PushData, numText: real -> string): (r: string)
    ensures TruthyStr(d.url) ==> r == d.url.value
    ensures !TruthyStr(d.url) && IsRefillTag(d.tag) && Truthy(Field(d.data, "supplementId"))
      ==> r == SupplementsPath + JsText.JsToString(Field(d.data, "supplementId"), numText)
    ensures !TruthyStr(d.url) && IsRefillTag(d.tag) && !Truthy(Field(d.data, "supplementId")) && Truthy(d.supplementId)
      ==> r == SupplementsPath + JsText.JsToString(d.supplementId, numText)
    ensures !TruthyStr(d.url) && (!IsRefillTag(d.tag) || (!Truthy(Field(d.data, "supplementId")) && !Truthy(d.supplementId)))
      ==> r == TodosUrl
  {
    if TruthyStr(d.url) then d.url.value
    else if IsRefillTag(d.tag) then
      var supplementId := OrElse(IdText(Field(d.data, "supplementId"), numText), IdText(d.supplementId, numText));
      if supplementId.Some? then SupplementsPath + supplementId.value else TodosUrl
    else TodosUrl
  }

  /** The notification shown when a push carries no usable data. */
  function FallbackNotification(nowMs: int): ShownNotification
  {
    ShownNotification(DefaultTitle, DefaultBody, AppIcon, AppIcon, None,
      map["dateOfArrival" := JNum(nowMs as real), "url" := JStr(TodosUrl)], [], false, false)
  }

  /**
   * The push handler: a parsed payload is shown with its own fields or the
   * defaults, and its notification data carries the redirect, which the
   * fields of `data.data` may override; otherwise the fallback is shown.
   */
  function HandlePush(event: PushEvent, nowMs: int, numText: real -> string): (n: ShownNotification)
    ensures !event.Payload? ==> n.title == DefaultTitle && n.body == DefaultBody && Field(n.data, "url") == JStr(TodosUrl)
    ensures event.Payload? ==>
      (n.title == OrDefault(event.push.title, DefaultTitle)
       && n.body == OrDefault(event.push.body, DefaultBody)
       && n.icon == OrDefault(event.push.icon, AppIcon) && n.badge == AppIcon
       && n.tag == Some(OrDefault(event.push.tag, DefaultTag)))
    ensures event.Payload? && "url" in event.push.data ==> Field(n.data, "url") == Field(event.push.data, "url")
    ensures event.Payload? && "url" !in event.push.data ==> Field(n.data, "url") == JStr(PushRedirect(event.push, numText))
    ensures event.Payload? ==> forall k | k in event.push.data :: k in n.data && n.data[k] == event.push.data[k]
  {
    match event
    case Payload(d) =>
      var own := map[
        "dateOfArrival" := JNum(nowMs as real),
        "primaryKey" := JStr(OrDefault(d.id, "1")),
        "url" := JStr(PushRedirect(d, numText))];
      ShownNotification(
        OrDefault(d.title, DefaultTitle),
        OrDefault(d.body, DefaultBody),
        OrDefault(d.icon, AppIcon),
        AppIcon,
        Some(OrDefault(d.tag, DefaultTag)),
        own + d.data,
        if d.actions.Some? then d.actions.value else [],
        d.requireInteraction,
        d.silent)
    case _ => FallbackNotification(nowMs)
  }

  /**
   * The page a click opens: the notification's own `data.url` when truthy;
   * otherwise a refill tag together with a truthy `data.supplementId` leads
   * to that supplement, and everything else to the to-do list.
   */
  function ClickUrl(n: ShownNotification, numText: real -> string): (r: JsValue)
    ensures Truthy(Field(n.data, "url")) ==> r == Field(n.data, "url")
    ensures !Truthy(Field(n.data, "url")) && IsRefillTag(n.tag) && Truthy(Field(n.data, "supplementId"))
      ==> r == JStr(SupplementsPath + JsText.JsToString(Field(n.data, "supplementId"), numText))
    ensures !Truthy(Field(n.data, "url")) && !(IsRefillTag(n.tag) && Truthy(Field(n.data, "supplementId")))
      ==> r == JStr(TodosUrl)
  {
    var url := Field(n.data, "url");
    if Truthy(url) then url
    else
      var tag := OrDefault(n.tag, "");
      var supplementId := IdText(Field(n.data, "supplementId"), numText);
      if Contains(tag, "refill") && supplementId.Some? then JStr(SupplementsPath + supplementId.value)
      else JStr(TodosUrl)
  }

  /** What a click does: the "dismiss" action only closes; any other click opens a page. */
  datatype ClickResult = Dismissed | Open(url: JsValue)

  function HandleClick(n: ShownNotification, action: string, numText: real -> string): (r: ClickResult)
    ensures action == "dismiss" <==> r.Dismissed?
    ensures r.Open? ==> r.url == ClickUrl(n, numText)
  {
    if action == "dismiss" then Dismissed else Open(ClickUrl(n, numText))
  }

  /** The redirect of a push is non-empty, so the shown notification always carries a truthy url. */
  lemma PushRedirectNonEmpty(d: PushData, numText: real -> string)
    ensures PushRedirect(d, numText) != ""
  {
  }

  /**
   * Clicking a notification shown for a push opens the page the push
   * redirect chose, unless `data.data` overrode the url.
   */
  lemma ClickFollowsPushRedirect(d: PushData, nowMs: int, action: string, numText: real -> string)
    requires "url" !in d.data && action != "dismiss"
    ensures HandleClick(HandlePush(Payload(d), nowMs, numText), action, numText) == Open(JStr(PushRedirect(d, numText)))
  {
    PushRedirectNonEmpty(d, numText);
  }

  /** Clicking the fallback notification opens the to-do list. */
  lemma FallbackClickOpensTodos(event: PushEvent, nowMs: int, action: string, numText: real -> string)
    requires !event.Payload? && action != "dismiss"
    ensures HandleClick(HandlePush(event, nowMs, numText), action, numText) == Open(JStr(TodosUrl))
  {
  }

  /** What the click handler does with the open windows. */
  datatype WindowAction = FocusExisting(index: nat) | OpenNew | NoWindow

  /** The first window whose url contains the app's origin. */
  function FirstAppWindow(clientUrls: seq<string>, origin: string): (r: Option<nat>)
    ensures r.Some? ==>
      (r.value < |clientUrls| && Contains(clientUrls[r.value], origin)
       && forall j | 0 <= j < r.value :: !Contains(clientUrls[j], origin))
    ensures r.None? ==> forall j | 0 <= j < |clientUrls| :: !Contains(clientUrls[j], origin)
  {
    if |clientUrls| == 0 then None
    else if Contains(clientUrls[0], origin) then Some(0)
    else
      var rest := FirstAppWindow(clientUrls[1..], origin);
      if rest.Some? then Some(rest.value + 1) else None
  }

  /**
   * The `matchAll` callback of a click: focus and navigate the first window
   * of the app, else open a new one if the browser can.
   */
  method ChooseWindow(clientUrls: seq<string>, origin: string, canOpenWindow: bool) returns (r: WindowAction)
    ensures r.FocusExisting? <==> FirstAppWindow(clientUrls, origin).Some?
    ensures r.FocusExisting? ==> r.index == FirstAppWindow(clientUrls, origin).value
    ensures r.OpenNew? <==> FirstAppWindow(clientUrls, origin).None? && canOpenWindow
  {
    var i := 0;
    while i < |clientUrls|
      invariant 0 <= i <= |clientUrls|
      invariant forall j | 0 <= j < i :: !Contains(clientUrls[j], origin)
    {
      if Contains(clientUrls[i], origin) {
        return FocusExisting(i);
      }
      i := i + 1;
    }
    if canOpenWindow {
      return OpenNew;
    }
    return NoWindow;
  }

  /** The prefix of a supplement reminder's title, exactly as the characters stand in public/sw.js. */
  const ReminderTitlePrefix: string := "\U{F0}\U{178}\U{2019}\U{160} "

  /** The label of a slot in a reminder body; an unknown slot text is shown as it is. */
  function SlotText(timeOfDay: string): (r: string)
    ensures ParseTimeOfDay(timeOfDay).Some? ==> r == NotificationTime.FormatTimeOfDayLabel(ParseTimeOfDay(timeOfDay).value)
    ensures ParseTimeOfDay(timeOfDay).None? ==> r == timeOfDay
  {
    match ParseTimeOfDay(timeOfDay)
    case Some(t) => NotificationTime.FormatTimeOfDayLabel(t)
    case None => timeOfDay
  }

  /** `showSupplementNotification`: the reminder for one slot of one supplement. */
  function SupplementNotification(s: SupplementWithSchedules, timeOfDay: string, nowMs: int): (n: ShownNotification)
    ensures n.title == ReminderTitlePrefix + s.name
    ensures n.tag == Some("supplement-" + s.id + "-" + timeOfDay)
    ensures Field(n.data, "url") == JStr(TodosUrl) && Field(n.data, "supplementId") == JStr(s.id)
    ensures n.requireInteraction && n.actions == ["mark-taken", "view"]
  {
    ShownNotification(
      ReminderTitlePrefix + s.name,
      "Time to take your " + s.name + " (" + SlotText(timeOfDay) + ")",
      AppIcon,
      AppIcon,
      Some("supplement-" + s.id + "-" + timeOfDay),
      map[
        "dateOfArrival" := JNum(nowMs as real),
        "supplementId" := JStr(s.id),
        "timeOfDay" := JStr(timeOfDay),
        "url" := JStr(TodosUrl)],
      ["mark-taken", "view"],
      true,
      false)
  }

  /** Clicking a supplement reminder opens the to-do list. */
  lemma ReminderClickOpensTodos(s: SupplementWithSchedules, timeOfDay: string, nowMs: int, action: string, numText: real -> string)
    requires action != "dismiss"
    ensures HandleClick(SupplementNotification(s, timeOfDay, nowMs), action, numText) == Open(JStr(TodosUrl))
  {
  }

  /** The key of a supplement's timer for one slot. */
  function TimerKey(id: string, timeOfDay: string): string
  {
    id + "-" + timeOfDay
  }

  /** A timer key names its slot: the four slot names end in four different letters. */
  lemma TimerKeyNamesSlot(id1: string, t1: TimeOfDay, id2: string, t2: TimeOfDay)
    requires TimerKey(id1, TimeOfDayName(t1)) == TimerKey(id2, TimeOfDayName(t2))
    ensures t1 == t2
  {
    var k := TimerKey(id1, TimeOfDayName(t1));
    assert k[|k| - 1] == TimeOfDayName(t1)[|TimeOfDayName(t1)| - 1];
    assert k[|k| - 1] == TimeOfDayName(t2)[|TimeOfDayName(t2)| - 1];
  }

  /** The timers of one supplement's schedules added to `timers`, in schedule order. */
  function AddSlotTimers(timers: map<string, int>, s: SupplementWithSchedules, slots: seq<string>, now: int): map<string, int>
  {
    if |slots| == 0 then timers
    else
      var before := AddSlotTimers(timers, s, slots[..|slots| - 1], now);
      var tod := slots[|slots| - 1];
      match ParseTimeOfDay(tod)
      case None => before
      case Some(t) => before[TimerKey(s.id, tod) := NextAt(now, SlotHour(t))]
  }

  /** The timers `scheduleSupplementNotifications` sets for the supplements, starting from none. */
  function PlannedTimers(supplements: seq<SupplementWithSchedules>, now: int): map<string, int>
  {
    if |supplements| == 0 then map[]
    else
      var last := supplements[|supplements| - 1];
      var before := PlannedTimers(supplements[..|supplements| - 1], now);
      if Remindable(last) then AddSlotTimers(before, last, SchedulesOf(last), now) else before
  }

  /** A remindable supplement of the list has a schedule naming slot `t`. */
  predicate Owes(supplements: seq<SupplementWithSchedules>, id: string, t: TimeOfDay)
  {
    exists i | 0 <= i < |supplements| ::
      Remindable(supplements[i]) && supplements[i].id == id && TimeOfDayName(t) in SchedulesOf(supplements[i])
  }

  /** Every timer key comes from a remindable supplement and a known slot. */
  ghost predicate KeysOwed(timers: map<string, int>, supplements: seq<SupplementWithSchedules>)
  {
    forall k | k in timers :: exists id, t: TimeOfDay :: k == TimerKey(id, TimeOfDayName(t)) && Owes(supplements, id, t)
  }

  /** The timer of a key fires at the next occurrence of the slot the key names. */
  ghost predicate TimersFireNext(timers: map<string, int>, now: int)
  {
    forall id, t: TimeOfDay | TimerKey(id, TimeOfDayName(t)) in timers ::
      timers[TimerKey(id, TimeOfDayName(t))] == NextAt(now, SlotHour(t))
  }

  lemma {:induction false} AddSlotTimersFacts(timers: map<string, int>, s: SupplementWithSchedules, slots: seq<string>, now: int)
    requires TimersFireNext(timers, now)
    ensures TimersFireNext(AddSlotTimers(timers, s, slots, now), now)
    ensures forall k | k in timers :: k in AddSlotTimers(timers, s, slots, now)
    ensures forall t: TimeOfDay | TimeOfDayName(t) in slots :: TimerKey(s.id, TimeOfDayName(t)) in AddSlotTimers(timers, s, slots, now)
    ensures forall k | k in AddSlotTimers(timers, s, slots, now) ::
      k in timers || exists t: TimeOfDay | TimeOfDayName(t) in slots :: k == TimerKey(s.id, TimeOfDayName(t))
  {
    if |slots| > 0 {
      var init := slots[..|slots| - 1];
      var tod := slots[|slots| - 1];
      AddSlotTimersFacts(timers, s, init, now);
      var before := AddSlotTimers(timers, s, init, now);
      assert slots == init + [tod];
      match ParseTimeOfDay(tod)
      case None =>
        forall t: TimeOfDay | TimeOfDayName(t) in slots
          ensures TimerKey(s.id, TimeOfDayName(t)) in before
        {
          TimeOfDayNameRoundTrip(t);
          assert TimeOfDayName(t) in init;
        }
      case Some(t0) =>
        assert tod == TimeOfDayName(t0);
        var after := before[TimerKey(s.id, tod) := NextAt(now, SlotHour(t0))];
        forall id, t: TimeOfDay | TimerKey(id, TimeOfDayName(t)) in after
          ensures after[TimerKey(id, TimeOfDayName(t))] == NextAt(now, SlotHour(t))
        {
          if TimerKey(id, TimeOfDayName(t)) == TimerKey(s.id, TimeOfDayName(t0)) {
            TimerKeyNamesSlot(id, t, s.id, t0);
          }
        }
    }
  }

  /** What the last supplement of a list owes, on top of what the others owe. */
  lemma OwesSnoc(supplements: seq<SupplementWithSchedules>, id: string, t: TimeOfDay)
    requires |supplements| > 0
    ensures var n := |supplements| - 1;
      Owes(supplements, id, t) <==>
        Owes(supplements[..n], id, t)
        || (Remindable(supplements[n]) && supplements[n].id == id && TimeOfDayName(t) in SchedulesOf(supplements[n]))
  {
    var n := |supplements| - 1;
    if Owes(supplements, id, t) {
      var i :| 0 <= i < |supplements| && Remindable(supplements[i]) && supplements[i].id == id
        && TimeOfDayName(t) in SchedulesOf(supplements[i]);
      if i < n {
        assert supplements[..n][i] == supplements[i];
      }
    }
    if Owes(supplements[..n], id, t) {
      var i :| 0 <= i < n && Remindable(supplements[..n][i]) && supplements[..n][i].id == id
        && TimeOfDayName(t) in SchedulesOf(supplements[..n][i]);
      assert supplements[i] == supplements[..n][i];
    }
  }

  /**
   * The planned timers are exactly one per key of a remindable supplement's
   * known slot, and each fires at the next occurrence of its slot after now.
   */
  lemma {:induction false} PlannedTimersFacts(supplements: seq<SupplementWithSchedules>, now: int)
    ensures TimersFireNext(PlannedTimers(supplements, now), now)
    ensures forall id, t: TimeOfDay | Owes(supplements, id, t) :: TimerKey(id, TimeOfDayName(t)) in PlannedTimers(supplements, now)
    ensures KeysOwed(PlannedTimers(supplements, now), supplements)
  {
    if |supplements| > 0 {
      var n := |supplements| - 1;
      var init := supplements[..n];
      var last := supplements[n];
      var before := PlannedTimers(init, now);
      var after := PlannedTimers(supplements, now);
      PlannedTimersFacts(init, now);
      if Remindable(last) {
        AddSlotTimersFacts(before, last, SchedulesOf(last), now);
      }
      forall id, t: TimeOfDay | Owes(supplements, id, t)
        ensures TimerKey(id, TimeOfDayName(t)) in after
      {
        OwesSnoc(supplements, id, t);
        if Owes(init, id, t) {
          assert TimerKey(id, TimeOfDayName(t)) in before;
        }
      }
      forall k | k in after
        ensures exists id, t: TimeOfDay :: k == TimerKey(id, TimeOfDayName(t)) && Owes(supplements, id, t)
      {
        if k in before {
          var id, t: TimeOfDay :| k == TimerKey(id, TimeOfDayName(t)) && Owes(init, id, t);
          OwesSnoc(supplements, id, t);
        } else {
          var t: TimeOfDay :| TimeOfDayName(t) in SchedulesOf(last) && k == TimerKey(last.id, TimeOfDayName(t));
          OwesSnoc(supplements, last.id, t);
        }
      }
    }
  }

  /** A message from the page to the worker. */
  datatype WorkerMessage =
    | ScheduleReminders(supplements: seq<SupplementWithSchedules>, preferences: Option<NotificationPreferences>)
    | ClearReminders
    | OtherMessage

  /**
   * The worker's `scheduledNotifications` map: one pending timer per
   * "<supplement id>-<slot>" key, recorded by the instant it fires.
   */
  class ReminderScheduler {
    var timers: map<string, int>

    constructor()
      ensures timers == map[]
    {
      timers := map[];
    }

    /** `clearAllScheduledNotifications`: every timer is cancelled. */
    method ClearAllScheduledNotifications()
      modifies this
      ensures timers == map[]
    {
      timers := map[];
    }

    /**
     * `scheduleSupplementNotifications`: drops every timer, then, when both
     * reminder switches are on, sets one per known slot of each ACTIVE,
     * non-deleted supplement at the slot's next hour after `now`.
     */
    method ScheduleSupplementNotifications(
      supplements: seq<SupplementWithSchedules>,
      preferences: Option<NotificationPreferences>,
      now: int)
      modifies this
      ensures !RemindersOn(preferences) ==> timers == map[]
      ensures RemindersOn(preferences) ==> timers == PlannedTimers(supplements, now)
    {
      ClearAllScheduledNotifications();
      if !RemindersOn(preferences) {
        return;
      }
      var i := 0;
      while i < |supplements|
        invariant 0 <= i <= |supplements|
        invariant timers == PlannedTimers(supplements[..i], now)
      {
        var supplement := supplements[i];
        assert supplements[..i + 1][..i] == supplements[..i];
        if Remindable(supplement) {
          var slots := SchedulesOf(supplement);
          var before := timers;
          var j := 0;
          while j < |slots|
            invariant 0 <= j <= |slots|
            invariant timers == AddSlotTimers(before, supplement, slots[..j], now)
          {
            assert slots[..j + 1][..j] == slots[..j];
            var slot := ParseTimeOfDay(slots[j]);
            if slot.Some? {
              var nextNotificationTime := NextAt(now, SlotHour(slot.value));
              timers := timers[TimerKey(supplement.id, slots[j]) := nextNotificationTime];
            }
            j := j + 1;
          }
          assert slots[..j] == slots;
        }
        i := i + 1;
      }
      assert supplements[..i] == supplements;
    }

    /** `scheduleSupplementNotification`: sets the timer unless its instant is not after `now`. */
    method ScheduleSupplementNotification(s: SupplementWithSchedules, timeOfDay: string, notificationTime: int, now: int)
      modifies this
      ensures notificationTime <= now ==> timers == old(timers)
      ensures notificationTime > now ==> timers == old(timers)[TimerKey(s.id, timeOfDay) := notificationTime]
    {
      var delay := notificationTime - now;
      if delay <= 0 {
        return;
      }
      timers := timers[TimerKey(s.id, timeOfDay) := notificationTime];
    }

    /**
     * A reminder timer firing at `firedAt`: shows the reminder and sets the
     * timer of the same slot one day later, unless that moment has already
     * passed, in which case no timer is set.
     */
    method FireReminder(s: SupplementWithSchedules, timeOfDay: string, firedAt: int, now: int)
      returns (shown: ShownNotification)
      modifies this
      ensures shown == SupplementNotification(s, timeOfDay, now)
      ensures now < firedAt + DayMs ==> timers == old(timers)[TimerKey(s.id, timeOfDay) := firedAt + DayMs]
      ensures now >= firedAt + DayMs ==> timers == old(timers)
    {
      shown := SupplementNotification(s, timeOfDay, now);
      ScheduleSupplementNotification(s, timeOfDay, firedAt + DayMs, now);
    }

    /** The message handler: schedule or clear on request; other messages change nothing. */
    method HandleMessage(message: WorkerMessage, now: int)
      modifies this
      ensures message.ScheduleReminders? && RemindersOn(message.preferences) ==> timers == PlannedTimers(message.supplements, now)
      ensures message.ScheduleReminders? && !RemindersOn(message.preferences) ==> timers == map[]
      ensures message.ClearReminders? ==> timers == map[]
      ensures message.OtherMessage? ==> timers == old(timers)
    {
      match message
      case ScheduleReminders(supplements, preferences) =>
        ScheduleSupplementNotifications(supplements, preferences, now);
      case ClearReminders =>
        ClearAllScheduledNotifications();
      case OtherMessage =>
    }
  }

  /** A reminder repeated a day later is at the same hour of the day. */
  lemma DailyRepeatKeepsHour(firedAt: int, hour: nat)
    requires hour < 24 && AtHour(firedAt, hour)
    ensures AtHour(firedAt + DayMs, hour)
  {
  }
}
