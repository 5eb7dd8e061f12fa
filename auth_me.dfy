/**
 * The parts of `GET /api/auth/me` (app/api/auth/me/route.ts) that compute
 * something: finding the session token in the Cookie header, the 401 answers,
 * and the day streak over the user's adherence records. The user lookup and
 * the queries are inputs.
 */
module AuthMe {
  import opened Common
  import opened Strings
  import Session

  // ---------------------------------------------------------------------------
  // The session cookie
  // ---------------------------------------------------------------------------

  const CookiePrefix := "pm_session="

  /** The Cookie header (or "") split at `;`, each piece trimmed. */
  function Cookies(cookieHeader: Option<string>): (cookies: seq<string>)
    ensures var pieces := Split(if cookieHeader.Some? then cookieHeader.value else "", ';');
      |cookies| == |pieces| && forall i | 0 <= i < |pieces| :: cookies[i] == Trim(pieces[i])
  {
    var pieces := Split(if cookieHeader.Some? then cookieHeader.value else "", ';');
    seq(|pieces|, i requires 0 <= i < |pieces| => Trim(pieces[i]))
  }

  /** The first index at or after `from` of a cookie that starts with `pm_session=`. */
  function FindSessionCookie(cookies: seq<string>, from: nat): (r: Option<nat>)
    requires from <= |cookies|
    ensures r.Some? ==> from <= r.value < |cookies| && StartsWith(cookies[r.value], CookiePrefix)
    ensures r.Some? ==> forall j | from <= j < r.value :: !StartsWith(cookies[j], CookiePrefix)
    ensures r.None? ==> forall j | from <= j < |cookies| :: !StartsWith(cookies[j], CookiePrefix)
    decreases |cookies| - from
  {
    if from == |cookies| then None
    else if StartsWith(cookies[from], CookiePrefix) then Some(from)
    else FindSessionCookie(cookies, from + 1)
  }

  lemma {:induction false} FindSessionCookieIs(cookies: seq<string>, from: nat, j: nat)
    requires from <= j < |cookies| && StartsWith(cookies[j], CookiePrefix)
    requires forall i | from <= i < j :: !StartsWith(cookies[i], CookiePrefix)
    ensures FindSessionCookie(cookies, from) == Some(j)
    decreases j - from
  {
    if from < j {
      FindSessionCookieIs(cookies, from + 1, j);
    }
  }

  /** A cookie that starts with the prefix is the prefix's name, `=`, then its value. */
  lemma CookieShape(cookie: string)
    requires StartsWith(cookie, CookiePrefix)
    ensures Split(cookie, '=') == ["pm_session"] + Split(cookie[|CookiePrefix|..], '=')
  {
    assert cookie == "pm_session" + ['='] + cookie[|CookiePrefix|..] by {
      assert cookie == cookie[..|CookiePrefix|] + cookie[|CookiePrefix|..];
    }
    SplitAfterSeparator("pm_session", cookie[|CookiePrefix|..], '=');
  }

  /** The value of a session cookie up to its next `=`. */
  function CookieValue(cookie: string): string
    requires StartsWith(cookie, CookiePrefix)
  {
    Split(cookie[|CookiePrefix|..], '=')[0]
  }

  /**
   * The token the handler reads: the first trimmed cookie that starts with
   * `pm_session=`, and the text between its first and second `=`.
   */
  function SessionToken(cookieHeader: Option<string>): (r: Option<string>)
    ensures var cookies := Cookies(cookieHeader);
      r.None? <==> forall j | 0 <= j < |cookies| :: !StartsWith(cookies[j], CookiePrefix)
    ensures var cookies := Cookies(cookieHeader);
      r.Some? ==> exists j | 0 <= j < |cookies| :: StartsWith(cookies[j], CookiePrefix) && r.value == CookieValue(cookies[j])
  {
    var cookies := Cookies(cookieHeader);
    match FindSessionCookie(cookies, 0)
    case None => None
    case Some(j) =>
      var cookie := cookies[j];
      CookieShape(cookie);
      Some(Split(cookie, '=')[1])
  }

  /** `pm_session=<t>` trims to itself, and its value is `t`. */
  lemma SessionCookieOfToken(t: string)
    requires '=' !in t
    requires |t| == 0 || !IsWhitespace(t[|t| - 1])
    ensures Trim(CookiePrefix + t) == CookiePrefix + t
    ensures StartsWith(CookiePrefix + t, CookiePrefix) && CookieValue(CookiePrefix + t) == t
  {
    var cookie := CookiePrefix + t;
    assert NoEdgeWhitespace(cookie) by {
      assert cookie[0] == 'p';
      if |t| > 0 { assert cookie[|cookie| - 1] == t[|t| - 1]; }
    }
    TrimNoop(cookie);
    assert cookie[..|CookiePrefix|] == CookiePrefix;
    assert cookie[|CookiePrefix|..] == t;
    SplitNoSeparator(t, '=');
  }

  /** The cookie name has no `;`, so a token without one makes a cookie without one. */
  lemma NoSemicolonInCookie(t: string)
    requires ';' !in t
    ensures ';' !in CookiePrefix + t
  {
    assert forall i | 0 <= i < |CookiePrefix| :: CookiePrefix[i] != ';';
  }

  lemma AppendAssoc(a: string, b: string, c: string)
    ensures a + b + c == a + (b + c)
  {
  }

  /** A header holding only `pm_session=<t>` yields `t`. */
  lemma TokenOfSingleCookie(t: string)
    requires ';' !in t && '=' !in t
    requires |t| == 0 || !IsWhitespace(t[|t| - 1])
    ensures SessionToken(Some(CookiePrefix + t)) == Some(t)
  {
    var cookie := CookiePrefix + t;
    SplitNoSeparator(cookie, ';');
    SessionCookieOfToken(t);
    var cookies := Cookies(Some(cookie));
    assert cookies == [cookie];
    FindSessionCookieIs(cookies, 0, 0);
  }

  /** Another cookie before the session cookie does not hide it. */
  lemma TokenAfterOtherCookie(other: string, t: string)
    requires ';' !in other && !StartsWith(Trim(other), CookiePrefix)
    requires ';' !in t && '=' !in t
    requires |t| == 0 || !IsWhitespace(t[|t| - 1])
    ensures SessionToken(Some(other + [';'] + CookiePrefix + t)) == Some(t)
  {
    SessionCookieOfToken(t);
    NoSemicolonInCookie(t);
    AppendAssoc(other + [';'], CookiePrefix, t);
    SecondCookieRead(other, CookiePrefix + t);
  }

  /** A trimmed session cookie after a cookie of another name is the one the handler reads. */
  lemma SecondCookieRead(other: string, cookie: string)
    requires ';' !in other && !StartsWith(Trim(other), CookiePrefix)
    requires ';' !in cookie && Trim(cookie) == cookie && StartsWith(cookie, CookiePrefix)
    ensures SessionToken(Some(other + [';'] + cookie)) == Some(CookieValue(cookie))
  {
    var header := Some(other + [';'] + cookie);
    var cookies := Cookies(header);
    CookiesOfTwo(other, cookie);
    assert cookies[1] == cookie && cookies[0] == Trim(other);
    assert forall i | 0 <= i < 1 :: !StartsWith(cookies[i], CookiePrefix);
    FindSessionCookieIs(cookies, 0, 1);
    SessionTokenAt(header, 1);
  }

  /** The token is the value of the session cookie the search finds. */
  lemma SessionTokenAt(cookieHeader: Option<string>, j: nat)
    requires FindSessionCookie(Cookies(cookieHeader), 0) == Some(j)
    ensures j < |Cookies(cookieHeader)| && StartsWith(Cookies(cookieHeader)[j], CookiePrefix)
    ensures SessionToken(cookieHeader) == Some(CookieValue(Cookies(cookieHeader)[j]))
  {
    CookieShape(Cookies(cookieHeader)[j]);
  }

  /** Two cookies separated by `;`. */
  lemma CookiesOfTwo(first: string, second: string)
    requires ';' !in first && ';' !in second
    ensures var cookies := Cookies(Some(first + [';'] + second));
      |cookies| == 2 && cookies[0] == Trim(first) && cookies[1] == Trim(second)
  {
    assert Split(first + [';'] + second, ';') == [first, second] by {
      SplitAfterSeparator(first, second, ';');
      SplitNoSeparator(second, ';');
    }
  }

  /** How the handler answers before it looks the user up. */
  datatype AuthCheck = NotAuthenticated | InvalidSession | Authenticated(uid: string) | Failed(message: string)

  /** The HTTP status of an early answer. */
  function StatusOf(c: AuthCheck): (status: int)
    ensures c.NotAuthenticated? || c.InvalidSession? ==> status == 401
    ensures c.Failed? ==> status == 400
    ensures c.Authenticated? ==> status == 200
  {
    match c
    case NotAuthenticated => 401
    case InvalidSession => 401
    case Authenticated(_) => 200
    case Failed(_) => 400
  }

  /** The token verifies and its payload carries `uid`. */
  predicate VerifiesTo(token: string, uid: string, nowMs: int, secretEnv: Option<string>, rt: Session.Runtime)
  {
    match Session.VerifySessionToken(token, nowMs, secretEnv, rt)
    case Returned(Some(payload)) => payload.uid == uid
    case _ => false
  }

  /**
   * No session cookie: 401 "Not authenticated". A token that does not verify
   * or carries an empty uid: 401 "Invalid session". A missing secret makes
   * verification throw, which the handler's catch turns into 400.
   */
  function Authenticate(cookieHeader: Option<string>, nowMs: int, secretEnv: Option<string>, rt: Session.Runtime): (r: AuthCheck)
    ensures SessionToken(cookieHeader).None? <==> r == NotAuthenticated
    ensures r.Authenticated? ==>
      (SessionToken(cookieHeader).Some? && r.uid != ""
       && VerifiesTo(SessionToken(cookieHeader).value, r.uid, nowMs, secretEnv, rt))
    ensures r.Failed? ==>
      (SessionToken(cookieHeader).Some?
       && Session.VerifySessionToken(SessionToken(cookieHeader).value, nowMs, secretEnv, rt) == Threw(r.message))
    ensures SessionToken(cookieHeader).Some? ==>
      var v := Session.VerifySessionToken(SessionToken(cookieHeader).value, nowMs, secretEnv, rt);
      (v.Threw? ==> r == Failed(v.message))
      && (v.Returned? && (v.value.None? || v.value.value.uid == "") ==> r == InvalidSession)
      && (v.Returned? && v.value.Some? && v.value.value.uid != "" ==> r == Authenticated(v.value.value.uid))
  {
    match SessionToken(cookieHeader)
    case None => NotAuthenticated
    case Some(token) =>
      match Session.VerifySessionToken(token, nowMs, secretEnv, rt)
      case Threw(message) => Failed(message)
      case Returned(payload) =>
        if payload.None? || payload.value.uid == "" then InvalidSession
        else Authenticated(payload.value.uid)
  }

  // ---------------------------------------------------------------------------
  // Day streak
  // ---------------------------------------------------------------------------

  const MsPerDay: int := 1000 * 60 * 60 * 24

  /** The UTC calendar day of a time value: the day `toISOString().split("T")[0]` names. */
  function UtcDay(ms: int): int
  {
    ms / MsPerDay
  }

  /** The distinct days of the records. */
  ghost function DaysOf(markedAt: seq<int>): set<int>
  {
    set k | 0 <= k < |markedAt| :: UtcDay(markedAt[k])
  }

  predicate Distinct(s: seq<int>)
  {
    forall i, j | 0 <= i < j < |s| :: s[i] != s[j]
  }

  /** The records' days in first-seen order, each once: the `Set` the handler fills. */
  method UniqueDays(markedAt: seq<int>) returns (days: seq<int>)
    ensures Distinct(days)
    ensures forall d :: d in days <==> d in DaysOf(markedAt)
  {
    days := [];
    for k := 0 to |markedAt|
      invariant Distinct(days)
      invariant forall d :: d in days <==> d in DaysOf(markedAt[..k])
    {
      var day := UtcDay(markedAt[k]);
      if day !in days {
        days := days + [day];
      }
      assert DaysOf(markedAt[..k + 1]) == DaysOf(markedAt[..k]) + {day} by {
        assert forall j | 0 <= j < k :: markedAt[..k + 1][j] == markedAt[..k][j];
      }
    }
    assert markedAt[..|markedAt|] == markedAt;
  }

  predicate Descending(s: seq<int>)
  {
    forall i, j | 0 <= i < j < |s| :: s[i] >= s[j]
  }

  /** Inserting into a descending list at the first place that is not larger keeps it descending. */
  function InsertDescending(x: int, s: seq<int>): (r: seq<int>)
    requires Descending(s)
    ensures |r| == |s| + 1 && (r[0] == x || (|s| > 0 && r[0] == s[0]))
    ensures Descending(r) && multiset(r) == multiset(s) + multiset{x}
  {
    if |s| == 0 || x >= s[0] then [x] + s
    else
      var rest := InsertDescending(x, s[1..]);
      assert s == [s[0]] + s[1..];
      ConsDescending(s[0], rest);
      [s[0]] + rest
  }

  /** A day no older than the first of a descending list can go in front of it. */
  lemma ConsDescending(x: int, s: seq<int>)
    requires Descending(s) && (|s| == 0 || x >= s[0])
    ensures Descending([x] + s)
  {
  }

  /** `sort((a, b) => b - a)` on distinct days: newest first. */
  function SortDescending(s: seq<int>): (r: seq<int>)
    ensures Descending(r) && multiset(r) == multiset(s)
  {
    if |s| == 0 then []
    else
      assert s == s[..|s| - 1] + [s[|s| - 1]];
      InsertDescending(s[|s| - 1], SortDescending(s[..|s| - 1]))
  }

  /** Sorting distinct days keeps them distinct, so newer days come strictly first. */
  lemma SortedDistinctIsStrict(s: seq<int>)
    requires Distinct(s)
    ensures var r := SortDescending(s); forall i, j | 0 <= i < j < |r| :: r[i] > r[j]
    ensures forall d :: d in SortDescending(s) <==> d in s
  {
    var r := SortDescending(s);
    forall d ensures d in r <==> d in s {
      assert d in r <==> d in multiset(r);
      assert d in s <==> d in multiset(s);
    }
    forall i, j | 0 <= i < j < |r| ensures r[i] > r[j] {
      if r[i] == r[j] {
        DistinctCountsOne(s, r[i]);
        CountAtLeastTwo(r, i, j);
        assert false;
      }
    }
  }

  lemma {:induction false} DistinctCountsOne(s: seq<int>, x: int)
    requires Distinct(s)
    ensures multiset(s)[x] <= 1
    decreases |s|
  {
    if |s| > 0 {
      DistinctCountsOne(s[1..], x);
      assert s == [s[0]] + s[1..];
      if s[0] == x {
        assert x !in s[1..];
        assert multiset(s[1..])[x] == 0;
      }
    }
  }

  lemma {:induction false} CountAtLeastTwo(r: seq<int>, i: nat, j: nat)
    requires i < j < |r| && r[i] == r[j]
    ensures multiset(r)[r[i]] >= 2
  {
    assert r == r[..i] + [r[i]] + r[i + 1..j] + [r[j]] + r[j + 1..];
  }

  /**
   * The `for` loop: one day, plus one more for each following day exactly one
   * day older, stopping at the first gap.
   */
  method CurrentStreak(sortedDates: seq<int>) returns (run: nat)
    requires |sortedDates| > 0
    ensures 1 <= run <= |sortedDates|
    ensures forall j | 0 <= j < run - 1 :: sortedDates[j] - sortedDates[j + 1] == 1
    ensures run < |sortedDates| ==> sortedDates[run - 1] - sortedDates[run] != 1
  {
    run := 1;
    var i := 0;
    while i < |sortedDates| - 1
      invariant 0 <= i <= |sortedDates| - 1 && run == i + 1
      invariant forall j | 0 <= j < i :: sortedDates[j] - sortedDates[j + 1] == 1
    {
      var currentDate := sortedDates[i] * MsPerDay;
      var nextDate := sortedDates[i + 1] * MsPerDay;
      var diffTime := currentDate - nextDate;
      var diffDays := diffTime / MsPerDay;
      assert diffDays == sortedDates[i] - sortedDates[i + 1] by {
        assert diffTime == (sortedDates[i] - sortedDates[i + 1]) * MsPerDay;
      }
      if diffDays == 1 {
        run := run + 1;
      } else {
        break;
      }
      i := i + 1;
    }
  }

  /** The run of a strictly descending list counts back one day at a time from its first day. */
  lemma {:induction false} RunCountsBack(s: seq<int>, run: nat)
    requires 1 <= run <= |s|
    requires forall j | 0 <= j < run - 1 :: s[j] - s[j + 1] == 1
    ensures forall j | 0 <= j < run :: s[j] == s[0] - j
    decreases run
  {
    if run > 1 {
      RunCountsBack(s, run - 1);
      assert s[run - 2] - s[run - 1] == 1;
    }
  }

  /** The day before a run is not among the days. */
  lemma RunStopsAtGap(s: seq<int>, run: nat)
    requires forall i, j | 0 <= i < j < |s| :: s[i] > s[j]
    requires 1 <= run <= |s|
    requires forall j | 0 <= j < run - 1 :: s[j] - s[j + 1] == 1
    requires run < |s| ==> s[run - 1] - s[run] != 1
    ensures s[0] - run !in s
  {
    RunCountsBack(s, run);
  }

  /** Some record falls on day `d`. */
  ghost predicate HasDay(markedAt: seq<int>, d: int)
  {
    d in DaysOf(markedAt)
  }

  /** The newest day among the records. */
  ghost predicate IsLatest(day: int, markedAt: seq<int>)
  {
    HasDay(markedAt, day) && forall d | HasDay(markedAt, d) :: d <= day
  }

  /** There is only one newest day. */
  lemma LatestUnique(day: int, other: int, markedAt: seq<int>)
    requires IsLatest(day, markedAt) && IsLatest(other, markedAt)
    ensures other == day
  {
  }

  /**
   * What the sorted distinct days say about the records: the first is the
   * newest day, the run back from it is on record, and the day before the
   * run is not.
   */
  lemma StreakOfSortedDays(markedAt: seq<int>, uniqueDates: seq<int>, sortedDates: seq<int>, run: nat)
    requires Distinct(uniqueDates) && forall d :: d in uniqueDates <==> d in DaysOf(markedAt)
    requires sortedDates == SortDescending(uniqueDates) && |sortedDates| > 0
    requires 1 <= run <= |sortedDates|
    requires forall j | 0 <= j < run - 1 :: sortedDates[j] - sortedDates[j + 1] == 1
    requires run < |sortedDates| ==> sortedDates[run - 1] - sortedDates[run] != 1
    ensures IsLatest(sortedDates[0], markedAt)
    ensures forall d | sortedDates[0] - run < d <= sortedDates[0] :: HasDay(markedAt, d)
    ensures !HasDay(markedAt, sortedDates[0] - run)
  {
    SortedDistinctIsStrict(uniqueDates);
    var latest := sortedDates[0];
    assert sortedDates[0] in sortedDates;
    forall d | HasDay(markedAt, d) ensures d <= latest {
      var k :| 0 <= k < |sortedDates| && sortedDates[k] == d;
      assert k == 0 || sortedDates[0] > sortedDates[k];
    }
    RunCountsBack(sortedDates, run);
    forall d | latest - run < d <= latest ensures HasDay(markedAt, d) {
      assert sortedDates[latest - d] == d;
      assert sortedDates[latest - d] in sortedDates;
    }
    RunStopsAtGap(sortedDates, run);
  }

  /**
   * What a streak of `dayStreak` says about the records: 0 when the newest
   * day is neither today nor yesterday, and otherwise that many days on
   * record back from the newest one, with the day before them missing.
   * Without records it says nothing.
   */
  ghost predicate StreakMeans(markedAt: seq<int>, today: int, dayStreak: nat)
  {
    forall latest | IsLatest(latest, markedAt) ::
      (latest != today && latest != today - 1 ==> dayStreak == 0)
      && (latest == today || latest == today - 1 ==>
            dayStreak >= 1
            && (forall d | latest - dayStreak < d <= latest :: HasDay(markedAt, d))
            && !HasDay(markedAt, latest - dayStreak))
  }

  /**
   * The day streak: 0 without records or when the newest day is neither
   * today nor yesterday; otherwise the number of consecutive days ending at
   * the newest one. Days are UTC days. `today` is the day number whose UTC
   * midnight the route's local midnight matches: each stored date is read as
   * UTC midnight and then moved to the local midnight of that instant, so on
   * a server at or east of UTC `today` is the server's local calendar day and
   * on a server west of UTC it is that day plus one.
   */
  method DayStreak(markedAt: seq<int>, today: int) returns (dayStreak: nat)
    ensures |markedAt| == 0 ==> dayStreak == 0
    ensures StreakMeans(markedAt, today, dayStreak)
  {
    dayStreak := 0;
    if |markedAt| > 0 {
      var uniqueDates := UniqueDays(markedAt);
      var sortedDates := SortDescending(uniqueDates);
      assert |sortedDates| > 0 by {
        assert UtcDay(markedAt[0]) in DaysOf(markedAt);
        SortedDistinctIsStrict(uniqueDates);
        assert UtcDay(markedAt[0]) in sortedDates;
      }
      if |sortedDates| > 0 {
        var currentStreak := CurrentStreak(sortedDates);
        var mostRecentDate := sortedDates[0];
        if mostRecentDate == today || mostRecentDate == today - 1 {
          dayStreak := currentStreak;
        } else {
          dayStreak := 0;
        }
        StreakAnswer(markedAt, uniqueDates, sortedDates, currentStreak, today, dayStreak);
      }
    }
  }

  /** The answer the handler gives from the newest day and the run back from it. */
  lemma StreakAnswer(markedAt: seq<int>, uniqueDates: seq<int>, sortedDates: seq<int>, run: nat, today: int, dayStreak: nat)
    requires Distinct(uniqueDates) && forall d :: d in uniqueDates <==> d in DaysOf(markedAt)
    requires sortedDates == SortDescending(uniqueDates) && |sortedDates| > 0
    requires 1 <= run <= |sortedDates|
    requires forall j | 0 <= j < run - 1 :: sortedDates[j] - sortedDates[j + 1] == 1
    requires run < |sortedDates| ==> sortedDates[run - 1] - sortedDates[run] != 1
    requires dayStreak == if sortedDates[0] == today || sortedDates[0] == today - 1 then run else 0
    ensures StreakMeans(markedAt, today, dayStreak)
  {
    StreakOfSortedDays(markedAt, uniqueDates, sortedDates, run);
    var mostRecent := sortedDates[0];
    forall latest | IsLatest(latest, markedAt) ensures latest == mostRecent {
      LatestUnique(mostRecent, latest, markedAt);
    }
  }
}
