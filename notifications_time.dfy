/**
 * Reminder windows of lib/utils/notifications-time.ts: each time-of-day
 * slot owns the fifteen minutes from its canonical hour, a local clock
 * reading maps to at most one slot, and a range of instants is scanned
 * minute by minute for the slots whose windows it touches.
 *
 * The time-zone conversion (`Intl.DateTimeFormat`) is the `clock`
 * parameter: it gives the local hour and minute of an instant.
 */
module NotificationTime {
  import opened Common
  import opened Strings

  /** `NOTIFICATION_WINDOW_MINUTES`. */
  const WindowMinutes: int := 15

  const MsPerMinute: int := 60000

  /** The local hour and minute of an instant. */
  datatype LocalHM = LocalHM(hour: int, minute: int)

  /** Slot `t`'s window holds the minute of the day `m`: from its hour, for fifteen minutes. */
  predicate InWindow(t: TimeOfDay, m: int)
  {
    SlotHour(t) * 60 <= m < SlotHour(t) * 60 + WindowMinutes
  }

  /** The windows of distinct slots never overlap. */
  lemma WindowsDisjoint(t1: TimeOfDay, t2: TimeOfDay, m: int)
    requires InWindow(t1, m) && InWindow(t2, m)
    ensures t1 == t2
  {
  }

  /** The first slot, in the order given, whose window holds `m`. */
  function FirstSlotIn(slots: seq<TimeOfDay>, m: int): (r: Option<TimeOfDay>)
    ensures r.Some? ==> r.value in slots && InWindow(r.value, m)
    ensures r.None? ==> forall k :: 0 <= k < |slots| ==> !InWindow(slots[k], m)
  {
    if |slots| == 0 then None
    else if InWindow(slots[0], m) then Some(slots[0])
    else FirstSlotIn(slots[1..], m)
  }

  /** `mapLocalTimeToTimeOfDay`: the slot whose window holds the local time, or `null`. */
  function MapLocalTimeToTimeOfDay(hour: int, minute: int): (r: Option<TimeOfDay>)
    ensures r.Some? ==> InWindow(r.value, hour * 60 + minute)
  {
    FirstSlotIn(AllTimesOfDay, hour * 60 + minute)
  }

  /** A slot is returned exactly when the time lies in its window; outside all four windows the result is `null`. */
  lemma MapLocalTimeExact(hour: int, minute: int, t: TimeOfDay)
    ensures MapLocalTimeToTimeOfDay(hour, minute) == Some(t) <==> InWindow(t, hour * 60 + minute)
  {
    var m := hour * 60 + minute;
    var r := MapLocalTimeToTimeOfDay(hour, minute);
    if InWindow(t, m) {
      assert t == AllTimesOfDay[0] || t == AllTimesOfDay[1] || t == AllTimesOfDay[2] || t == AllTimesOfDay[3];
      assert r.Some?;
      WindowsDisjoint(r.value, t, m);
    }
  }

  /** `n.toString().padStart(2, "0")` for a non-negative number. */
  function Pad2(n: nat): (s: string)
    ensures |s| >= 2 && forall i :: 0 <= i < |s| ==> '0' <= s[i] <= '9'
    ensures DigitsValue(s) == n
    ensures n < 100 ==> |s| == 2
  {
    NatToStringValue(n);
    var digits := NatToString(n);
    if |digits| < 2 then
      LeadingZero(digits);
      "0" + digits
    else digits
  }

  lemma LeadingZero(s: string)
    requires |s| == 1 && '0' <= s[0] <= '9'
    ensures DigitsValue("0" + s) == DigitsValue(s)
  {
    assert ("0" + s)[..1] == "0";
  }

  lemma NatToStringShort(n: nat)
    requires n < 100
    ensures |NatToString(n)| <= 2
  {
  }

  /** The `HH:MM` label of a local time. */
  function LocalTime(hour: nat, minute: nat): (s: string)
    ensures hour < 100 && minute < 100 ==>
      && |s| == 5 && s[2] == ':'
      && (forall i :: 0 <= i < 5 && i != 2 ==> '0' <= s[i] <= '9')
      && DigitsValue(s[..2]) == hour && DigitsValue(s[3..]) == minute
  {
    if hour < 100 && minute < 100 then
      NatToStringShort(hour);
      NatToStringShort(minute);
      var s := Pad2(hour) + ":" + Pad2(minute);
      assert s[..2] == Pad2(hour) && s[3..] == Pad2(minute);
      s
    else Pad2(hour) + ":" + Pad2(minute)
  }

  /** What `isWithinNotificationWindow` reports for an instant: the slot, if any, and the local time label. */
  datatype WindowCheck = WindowCheck(timeOfDay: Option<TimeOfDay>, localTime: string)

  /** `isWithinNotificationWindow` with the local hour and minute already read off the clock. */
  function IsWithinNotificationWindow(local: LocalHM): (r: WindowCheck)
    requires 0 <= local.hour && 0 <= local.minute
    ensures r.timeOfDay == MapLocalTimeToTimeOfDay(local.hour, local.minute)
    ensures local.hour < 100 && local.minute < 100 ==> |r.localTime| == 5
  {
    WindowCheck(MapLocalTimeToTimeOfDay(local.hour, local.minute), LocalTime(local.hour, local.minute))
  }

  /** A local clock reads a valid time of day at every instant. */
  ghost predicate ValidClock(clock: int -> LocalHM)
  {
    forall t :: 0 <= clock(t).hour < 24 && 0 <= clock(t).minute < 60
  }

  /** `formatTimeOfDayLabel`. */
  function FormatTimeOfDayLabel(t: TimeOfDay): (s: string)
    ensures |s| > 0
  {
    match t
    case Morning => "Morning"
    case Lunch => "Lunch"
    case Dinner => "Dinner"
    case BeforeSleep => "Before Sleep"
  }

  /** Distinct slots get distinct labels. */
  lemma LabelsDistinct(t1: TimeOfDay, t2: TimeOfDay)
    ensures FormatTimeOfDayLabel(t1) == FormatTimeOfDayLabel(t2) <==> t1 == t2
  {
    if t1 != t2 {
      assert FormatTimeOfDayLabel(t1)[..2] != FormatTimeOfDayLabel(t2)[..2] || |FormatTimeOfDayLabel(t1)| != |FormatTimeOfDayLabel(t2)|;
    }
  }

  /** One entry of `getTimeOfDayWindowsInRange`. */
  datatype Window = Window(timeOfDay: TimeOfDay, localTime: string)

  predicate HasSlot(windows: seq<Window>, t: TimeOfDay)
  {
    exists k :: 0 <= k < |windows| && windows[k].timeOfDay == t
  }

  /** No slot appears twice. */
  predicate DistinctSlots(windows: seq<Window>)
  {
    forall i, j :: 0 <= i < j < |windows| ==> windows[i].timeOfDay != windows[j].timeOfDay
  }

  /** Records the check at one instant unless its slot is already listed. */
  function Record(windows: seq<Window>, check: WindowCheck): (r: seq<Window>)
    ensures DistinctSlots(windows) ==> DistinctSlots(r)
    ensures r == windows || (check.timeOfDay.Some? && r == windows + [Window(check.timeOfDay.value, check.localTime)])
  {
    if check.timeOfDay.Some? && !HasSlot(windows, check.timeOfDay.value) then
      windows + [Window(check.timeOfDay.value, check.localTime)]
    else windows
  }

  /** The scan from `current` to `end`, one minute at a time, recording into `windows`. */
  function ScanFrom(current: int, end: int, reading: int -> WindowCheck, windows: seq<Window>): seq<Window>
    decreases end - current
  {
    if current > end then windows
    else ScanFrom(current + MsPerMinute, end, reading, Record(windows, reading(current)))
  }

  /** Every listed window was seen at some instant of the range: its slot and label are what was read there. */
  ghost predicate SeenIn(windows: seq<Window>, start: int, end: int, reading: int -> WindowCheck)
  {
    forall k :: 0 <= k < |windows| ==> SeenBetween(windows[k], start, end, reading)
  }

  ghost predicate SeenBetween(w: Window, start: int, end: int, reading: int -> WindowCheck)
  {
    exists t :: start <= t <= end && SeenAt(w, reading, t)
  }

  ghost predicate SeenAt(w: Window, reading: int -> WindowCheck, t: int)
  {
    reading(t) == WindowCheck(Some(w.timeOfDay), w.localTime)
  }

  /** The scan keeps slots distinct and lists only windows seen in the range. */
  lemma {:induction false} ScanFromSound(start: int, current: int, end: int, reading: int -> WindowCheck, windows: seq<Window>)
    requires start <= current
    requires DistinctSlots(windows) && SeenIn(windows, start, end, reading)
    ensures DistinctSlots(ScanFrom(current, end, reading, windows))
    ensures SeenIn(ScanFrom(current, end, reading, windows), start, end, reading)
    decreases end - current
  {
    if current <= end {
      var check := reading(current);
      var next := Record(windows, check);
      forall k | 0 <= k < |next|
        ensures SeenBetween(next[k], start, end, reading)
      {
        if k < |windows| {
          assert next[k] == windows[k];
        } else {
          assert check.timeOfDay.Some? && next[k] == Window(check.timeOfDay.value, check.localTime);
          assert SeenAt(next[k], reading, current);
        }
      }
      assert SeenIn(next, start, end, reading);
      ScanFromSound(start, current + MsPerMinute, end, reading, next);
    }
  }

  /** How many entries carry slot `t`. */
  function CountSlot(windows: seq<Window>, t: TimeOfDay): nat
  {
    if |windows| == 0 then 0
    else (if windows[0].timeOfDay == t then 1 else 0) + CountSlot(windows[1..], t)
  }

  lemma {:induction false} CountsAddUp(windows: seq<Window>)
    ensures |windows| == CountSlot(windows, Morning) + CountSlot(windows, Lunch) + CountSlot(windows, Dinner) + CountSlot(windows, BeforeSleep)
  {
    if |windows| > 0 {
      CountsAddUp(windows[1..]);
    }
  }

  lemma {:induction false} AbsentCountZero(windows: seq<Window>, t: TimeOfDay)
    requires forall k :: 0 <= k < |windows| ==> windows[k].timeOfDay != t
    ensures CountSlot(windows, t) == 0
  {
    if |windows| > 0 {
      AbsentCountZero(windows[1..], t);
    }
  }

  lemma {:induction false} DistinctCountAtMostOne(windows: seq<Window>, t: TimeOfDay)
    requires DistinctSlots(windows)
    ensures CountSlot(windows, t) <= 1
  {
    if |windows| > 0 {
      if windows[0].timeOfDay == t {
        AbsentCountZero(windows[1..], t);
      } else {
        DistinctCountAtMostOne(windows[1..], t);
      }
    }
  }

  /** A list with distinct slots has at most four entries. */
  lemma DistinctSlotsAtMostFour(windows: seq<Window>)
    requires DistinctSlots(windows)
    ensures |windows| <= 4
  {
    CountsAddUp(windows);
    DistinctCountAtMostOne(windows, Morning);
    DistinctCountAtMostOne(windows, Lunch);
    DistinctCountAtMostOne(windows, Dinner);
    DistinctCountAtMostOne(windows, BeforeSleep);
  }

  /** The instant of the `i`-th minute of a scan that starts at `start`. */
  function Instant(start: int, i: nat): (t: int)
    ensures t == start + i * 60000
  {
    start + i * MsPerMinute
  }

  /** The slot whose window the reading at `t` falls in, if any. */
  function SlotAt(reading: int -> WindowCheck, t: int): Option<TimeOfDay>
  {
    reading(t).timeOfDay
  }

  /** The `i`-th minute of the scan is the first at which `w`'s slot is met, and `w` is its reading there. */
  ghost predicate FirstSeen(w: Window, start: int, i: nat, reading: int -> WindowCheck)
  {
    SeenAt(w, reading, Instant(start, i))
    && forall j: nat | j < i :: SlotAt(reading, Instant(start, j)) != Some(w.timeOfDay)
  }

  /** Every slot met at one of the first `n` minutes is listed. */
  ghost predicate CoversFirst(windows: seq<Window>, start: int, n: nat, reading: int -> WindowCheck)
  {
    forall i: nat | i < n && SlotAt(reading, Instant(start, i)).Some? :: HasSlot(windows, SlotAt(reading, Instant(start, i)).value)
  }

  /** `w` is the first sighting of its slot at one of the first `n` minutes. */
  ghost predicate FirstSeenBefore(w: Window, start: int, n: nat, reading: int -> WindowCheck)
  {
    exists i: nat :: i < n && FirstSeen(w, start, i, reading)
  }

  /** Every listed window is the first sighting of its slot within the first `n` minutes. */
  ghost predicate SightedFirst(windows: seq<Window>, start: int, n: nat, reading: int -> WindowCheck)
  {
    forall k | 0 <= k < |windows| :: FirstSeenBefore(windows[k], start, n, reading)
  }

  /** The windows are listed in the order their slots were first met. */
  ghost predicate InSightingOrder(windows: seq<Window>, start: int, reading: int -> WindowCheck)
  {
    forall a, b, ia: nat, ib: nat | 0 <= a < b < |windows|
      && FirstSeen(windows[a], start, ia, reading) && FirstSeen(windows[b], start, ib, reading) :: ia < ib
  }

  /** A reading seen at an instant names that instant's slot. */
  lemma SeenGivesSlot(w: Window, reading: int -> WindowCheck, t: int)
    ensures SeenAt(w, reading, t) ==> SlotAt(reading, t) == Some(w.timeOfDay)
  {
  }

  /** A slot is first met at one minute only. */
  lemma FirstSeenUnique(w: Window, start: int, i: nat, j: nat, reading: int -> WindowCheck)
    requires FirstSeen(w, start, i, reading) && FirstSeen(w, start, j, reading)
    ensures i == j
  {
    SeenGivesSlot(w, reading, Instant(start, i));
    SeenGivesSlot(w, reading, Instant(start, j));
  }

  /** Recording the `n`-th minute lists its slot, so the list covers one minute more. */
  lemma RecordCovers(windows: seq<Window>, start: int, n: nat, reading: int -> WindowCheck)
    requires CoversFirst(windows, start, n, reading)
    ensures CoversFirst(Record(windows, reading(Instant(start, n))), start, n + 1, reading)
  {
    var check := reading(Instant(start, n));
    var next := Record(windows, check);
    assert forall k | 0 <= k < |windows| :: next[k] == windows[k];
    forall i: nat | i < n + 1 && SlotAt(reading, Instant(start, i)).Some?
      ensures HasSlot(next, SlotAt(reading, Instant(start, i)).value)
    {
      if i < n {
        var k :| 0 <= k < |windows| && windows[k].timeOfDay == SlotAt(reading, Instant(start, i)).value;
        assert next[k] == windows[k];
      } else if HasSlot(windows, check.timeOfDay.value) {
        var k :| 0 <= k < |windows| && windows[k].timeOfDay == check.timeOfDay.value;
        assert next[k] == windows[k];
      } else {
        assert next[|windows|].timeOfDay == check.timeOfDay.value;
      }
    }
  }

  /** A window recorded at the `n`-th minute is the first sighting of its slot. */
  lemma RecordedIsFirst(windows: seq<Window>, start: int, n: nat, reading: int -> WindowCheck)
    requires CoversFirst(windows, start, n, reading)
    ensures var check := reading(Instant(start, n));
      check.timeOfDay.Some? && !HasSlot(windows, check.timeOfDay.value)
      ==> FirstSeen(Window(check.timeOfDay.value, check.localTime), start, n, reading)
  {
    var check := reading(Instant(start, n));
    if check.timeOfDay.Some? && !HasSlot(windows, check.timeOfDay.value) {
      var w := Window(check.timeOfDay.value, check.localTime);
      assert forall j: nat | j < n :: SlotAt(reading, Instant(start, j)) != Some(w.timeOfDay);
    }
  }

  /** Recording the `n`-th minute keeps every entry a first sighting, and the entries in sighting order. */
  lemma RecordSighted(windows: seq<Window>, start: int, n: nat, reading: int -> WindowCheck)
    requires CoversFirst(windows, start, n, reading) && SightedFirst(windows, start, n, reading)
    requires InSightingOrder(windows, start, reading)
    ensures var next := Record(windows, reading(Instant(start, n)));
      SightedFirst(next, start, n + 1, reading) && InSightingOrder(next, start, reading)
  {
    var check := reading(Instant(start, n));
    var next := Record(windows, check);
    RecordedIsFirst(windows, start, n, reading);
    forall k | 0 <= k < |windows| ensures FirstSeenBefore(windows[k], start, n + 1, reading) {
      assert FirstSeenBefore(windows[k], start, n, reading);
      var i: nat :| i < n && FirstSeen(windows[k], start, i, reading);
    }
    if next != windows {
      var w := Window(check.timeOfDay.value, check.localTime);
      assert next == windows + [w];
      assert FirstSeenBefore(w, start, n + 1, reading) by {
        assert FirstSeen(w, start, n, reading);
      }
      forall a, b, ia: nat, ib: nat | 0 <= a < b < |next|
        && FirstSeen(next[a], start, ia, reading) && FirstSeen(next[b], start, ib, reading)
        ensures ia < ib
      {
        assert next[a] == windows[a];
        if b == |windows| {
          FirstSeenUnique(w, start, ib, n, reading);
          var i0: nat :| i0 < n && FirstSeen(windows[a], start, i0, reading);
          FirstSeenUnique(windows[a], start, ia, i0, reading);
        } else {
          assert next[b] == windows[b];
        }
      }
    }
  }

  /** Past the end, the first sightings below minute `n` are all at scanned minutes up to `end`. */
  lemma SightedUpToEnd(windows: seq<Window>, start: int, n: nat, end: int, reading: int -> WindowCheck)
    requires n == 0 || Instant(start, n - 1) <= end
    requires SightedFirst(windows, start, n, reading)
    ensures SightedInScan(windows, start, end, reading)
  {
    forall k | 0 <= k < |windows| ensures FirstSeenUpTo(windows[k], start, end, reading) {
      var i: nat :| i < n && FirstSeen(windows[k], start, i, reading);
      assert Instant(start, i) <= Instant(start, n - 1);
    }
  }

  /**
   * From minute `n` on, the scan lists every slot met at any minute up to
   * `end`, each as its first sighting, in the order they were first met.
   */
  lemma {:induction false} ScanFromComplete(start: int, n: nat, end: int, reading: int -> WindowCheck, windows: seq<Window>)
    requires n == 0 || Instant(start, n - 1) <= end
    requires CoversFirst(windows, start, n, reading) && SightedFirst(windows, start, n, reading)
    requires InSightingOrder(windows, start, reading)
    ensures var r := ScanFrom(Instant(start, n), end, reading, windows);
      CoversScan(r, start, end, reading) && SightedInScan(r, start, end, reading) && InSightingOrder(r, start, reading)
    decreases end - Instant(start, n)
  {
    if Instant(start, n) <= end {
      RecordCovers(windows, start, n, reading);
      RecordSighted(windows, start, n, reading);
      var next := Record(windows, reading(Instant(start, n)));
      assert Instant(start, n) + MsPerMinute == Instant(start, n + 1);
      assert ScanFrom(Instant(start, n), end, reading, windows) == ScanFrom(Instant(start, n + 1), end, reading, next);
      ScanFromComplete(start, n + 1, end, reading, next);
    } else {
      assert ScanFrom(Instant(start, n), end, reading, windows) == windows;
      SightedUpToEnd(windows, start, n, end, reading);
      forall i: nat | Instant(start, i) <= end && SlotAt(reading, Instant(start, i)).Some?
        ensures HasSlot(windows, SlotAt(reading, Instant(start, i)).value)
      {
        assert i < n;
      }
    }
  }

  /** Every slot met at a scanned minute up to `end` is listed. */
  ghost predicate CoversScan(windows: seq<Window>, start: int, end: int, reading: int -> WindowCheck)
  {
    forall i: nat | Instant(start, i) <= end && SlotAt(reading, Instant(start, i)).Some? ::
      HasSlot(windows, SlotAt(reading, Instant(start, i)).value)
  }

  /** `w` is the first sighting of its slot at a scanned minute up to `end`. */
  ghost predicate FirstSeenUpTo(w: Window, start: int, end: int, reading: int -> WindowCheck)
  {
    exists i: nat :: Instant(start, i) <= end && FirstSeen(w, start, i, reading)
  }

  /** Every listed window is its slot's first sighting at a scanned minute up to `end`. */
  ghost predicate SightedInScan(windows: seq<Window>, start: int, end: int, reading: int -> WindowCheck)
  {
    forall k | 0 <= k < |windows| :: FirstSeenUpTo(windows[k], start, end, reading)
  }

  /** What the scan reads at each instant: the window check of the local clock there. */
  function Readings(clock: int -> LocalHM): (reading: int -> WindowCheck)
    requires ValidClock(clock)
  {
    t => IsWithinNotificationWindow(clock(t))
  }

  /**
   * What the scan of a range gives: distinct slots, at most four, each seen
   * in the range; every slot met at a checked minute is listed, each as its
   * first sighting, in the order they were first met.
   */
  lemma ScanResult(start: int, end: int, reading: int -> WindowCheck)
    ensures var r := ScanFrom(start, end, reading, []);
      DistinctSlots(r) && |r| <= 4 && SeenIn(r, start, end, reading)
      && CoversScan(r, start, end, reading) && SightedInScan(r, start, end, reading)
      && InSightingOrder(r, start, reading)
  {
    ScanFromSound(start, start, end, reading, []);
    DistinctSlotsAtMostFour(ScanFrom(start, end, reading, []));
    assert Instant(start, 0) == start;
    ScanFromComplete(start, 0, end, reading, []);
  }

  /**
   * The loop of `getTimeOfDayWindowsInRange`: checks every minute from
   * `startMs` to `endMs` inclusive with `reading` and lists each slot the
   * first time its window is met. It computes the scan of `ScanFrom`, so
   * `ScanResult` says what it lists: every slot met at a checked minute,
   * each with the label of the minute it was first met, in the order they
   * were first met.
   */
  method ScanWindows(startMs: int, endMs: int, reading: int -> WindowCheck) returns (windows: seq<Window>)
    ensures windows == ScanFrom(startMs, endMs, reading, [])
    ensures startMs > endMs ==> windows == []
    ensures DistinctSlots(windows) && |windows| <= 4
    ensures SeenIn(windows, startMs, endMs, reading)
  {
    windows := [];
    var current := startMs;
    while current <= endMs
      invariant startMs <= current
      invariant ScanFrom(current, endMs, reading, windows) == ScanFrom(startMs, endMs, reading, [])
      decreases endMs - current
    {
      var check := reading(current);
      assert ScanFrom(current, endMs, reading, windows) == ScanFrom(current + MsPerMinute, endMs, reading, Record(windows, check));
      if check.timeOfDay.Some? && !HasSlot(windows, check.timeOfDay.value) {
        windows := windows + [Window(check.timeOfDay.value, check.localTime)];
      }
      current := current + MsPerMinute;
    }
    assert DistinctSlots(windows) && |windows| <= 4 && SeenIn(windows, startMs, endMs, reading) by {
      ScanFromSound(startMs, startMs, endMs, reading, []);
      DistinctSlotsAtMostFour(windows);
    }
  }

  /**
   * `getTimeOfDayWindowsInRange`: the scan whose check at each minute is
   * `isWithinNotificationWindow` on the local clock of the user's time zone.
   */
  method GetTimeOfDayWindowsInRange(startMs: int, endMs: int, clock: int -> LocalHM) returns (windows: seq<Window>)
    requires ValidClock(clock)
    ensures windows == ScanFrom(startMs, endMs, Readings(clock), [])
    ensures startMs > endMs ==> windows == []
    ensures DistinctSlots(windows) && |windows| <= 4
    ensures SeenIn(windows, startMs, endMs, Readings(clock))
  {
    windows := ScanWindows(startMs, endMs, Readings(clock));
  }
}
