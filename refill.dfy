/**
 * The refill-reminder cron (`POST /api/push/refill`,
 * app/api/push/refill/route.ts): who is asked, which supplements are low,
 * how they are grouped per owner, and the one notification each owner gets.
 * The two database reads and `sendNotification` are inputs.
 */
module Refill {
  import opened Common
  import opened Strings
  import PushActions
  import Grouping

  // ---------------------------------------------------------------------------
  // Who and what
  // ---------------------------------------------------------------------------

  datatype Preference = Preference(userId: string, systemNotificationsEnabled: bool, refillRemindersEnabled: bool)

  datatype SupplementRow = SupplementRow(
    id: string,
    userId: string,
    name: string,
    inventoryTotal: Option<int>,
    lowInventoryThreshold: Option<int>,
    endDate: Option<string>,
    status: SupplementStatus,
    deletedAt: Option<string>)

  /** Both switches must be on for a user to get refill reminders. */
  predicate RemindersEnabled(p: Preference)
  {
    p.systemNotificationsEnabled && p.refillRemindersEnabled
  }

  /** The enabled users' ids, in preference order. */
  function EnabledUserIds(prefs: seq<Preference>): (ids: seq<string>)
    ensures |ids| <= |prefs|
    ensures forall u :: u in ids <==> exists k | 0 <= k < |prefs| :: prefs[k].userId == u && RemindersEnabled(prefs[k])
  {
    if |prefs| == 0 then []
    else
      var init := prefs[..|prefs| - 1];
      var last := prefs[|prefs| - 1];
      var r := EnabledUserIds(init) + (if RemindersEnabled(last) then [last.userId] else []);
      assert forall k | 0 <= k < |init| :: init[k] == prefs[k];
      r
  }

  /**
   * The supplement query: rows of enabled users that are active, not
   * deleted, open-ended, and have both an inventory and a threshold.
   */
  predicate Tracked(s: SupplementRow, enabled: seq<string>)
  {
    && s.userId in enabled
    && s.status == Active
    && s.deletedAt.None?
    && s.endDate.None?
    && s.inventoryTotal.Some?
    && s.lowInventoryThreshold.Some?
  }

  function OrZero(x: Option<int>): int
  {
    if x.Some? then x.value else 0
  }

  /** Low on stock: `(inventory ?? 0) <= (threshold ?? 0)`. */
  predicate IsLow(s: SupplementRow)
  {
    OrZero(s.inventoryTotal) <= OrZero(s.lowInventoryThreshold)
  }

  /** The low rows among the tracked ones, in query order. */
  function LowSupplements(rows: seq<SupplementRow>, enabled: seq<string>): (r: seq<SupplementRow>)
    ensures |r| <= |rows|
    ensures forall k | 0 <= k < |r| :: Tracked(r[k], enabled) && IsLow(r[k]) && r[k] in rows
  {
    if |rows| == 0 then []
    else
      var last := rows[|rows| - 1];
      LowSupplements(rows[..|rows| - 1], enabled) + (if Tracked(last, enabled) && IsLow(last) then [last] else [])
  }

  /** Without users who enabled refill reminders no row is low. */
  lemma NoneLowWithoutUsers(rows: seq<SupplementRow>, enabled: seq<string>)
    requires |enabled| == 0
    ensures LowSupplements(rows, enabled) == []
  {
  }

  /** A row is reminded about exactly when it is tracked and low. */
  lemma {:induction false} LowSupplementsMembers(rows: seq<SupplementRow>, enabled: seq<string>, s: SupplementRow)
    ensures s in LowSupplements(rows, enabled) <==> s in rows && Tracked(s, enabled) && IsLow(s)
    decreases |rows|
  {
    if |rows| > 0 {
      var init := rows[..|rows| - 1];
      LowSupplementsMembers(init, enabled, s);
      assert rows == init + [rows[|rows| - 1]];
    }
  }

  // ---------------------------------------------------------------------------
  // Grouping by owner
  // ---------------------------------------------------------------------------

  datatype RefillItem = RefillItem(id: string, name: string, inventoryTotal: Option<int>, lowInventoryThreshold: Option<int>)

  function ItemOf(s: SupplementRow): RefillItem
  {
    RefillItem(s.id, s.name, s.inventoryTotal, s.lowInventoryThreshold)
  }

  function OwnerOf(s: SupplementRow): string
  {
    s.userId
  }

  /** The owners of the rows, each once, in order of first appearance (the Map's key order). */
  function Owners(rows: seq<SupplementRow>): (us: seq<string>)
    ensures forall i, j | 0 <= i < j < |us| :: us[i] != us[j]
  {
    Grouping.Keys(rows, OwnerOf)
  }

  /** One owner's items, in the order the rows came. */
  function ItemsOf(rows: seq<SupplementRow>, u: string): seq<RefillItem>
  {
    Grouping.Group(rows, OwnerOf, ItemOf, u)
  }

  /** The owners' lists, as the Map ends up holding them. */
  function Groups(rows: seq<SupplementRow>): (groups: map<string, seq<RefillItem>>)
    ensures Grouped(Owners(rows), groups)
    ensures forall u | u in groups :: groups[u] == ItemsOf(rows, u)
  {
    Grouping.Groups(rows, OwnerOf, ItemOf)
  }

  /** Every owner has a non-empty list. */
  predicate Grouped(owners: seq<string>, groups: map<string, seq<RefillItem>>)
  {
    forall k | 0 <= k < |owners| :: owners[k] in groups && |groups[owners[k]]| > 0
  }

  /**
   * Each low row's item is in its owner's list, every owner has a list, and
   * the lists' sizes add up to the number of low rows: every row is grouped
   * exactly once.
   */
  lemma GroupsPartitionRows(rows: seq<SupplementRow>, k: nat)
    requires k < |rows|
    ensures rows[k].userId in Owners(rows)
    ensures ItemOf(rows[k]) in ItemsOf(rows, rows[k].userId)
    ensures Grouping.SizeSum(Owners(rows), rows, OwnerOf, ItemOf) == |rows|
  {
    Grouping.KeysMembers(rows, OwnerOf, rows[k].userId);
    Grouping.GroupHasRow(rows, OwnerOf, ItemOf, k);
    Grouping.GroupsPartitionRows(rows, OwnerOf, ItemOf);
  }

  // ---------------------------------------------------------------------------
  // The notifications
  // ---------------------------------------------------------------------------

  const RefillTitle: string := "Time to refill your supplements"
  const RefillTag: string := "refill-reminder"

  /** The message: the one item with its stock and threshold, or the count and the first item. */
  function RefillBody(items: seq<RefillItem>): string
    requires |items| > 0
  {
    var primary := items[0];
    var current := IntToString(OrZero(primary.inventoryTotal));
    var threshold := IntToString(OrZero(primary.lowInventoryThreshold));
    if |items| == 1 then
      "You're running low on " + primary.name + (" (" + (current + " left") + (", threshold " + threshold + ")."))
    else
      "You're running low on " + (NatToString(|items|) + " supplements") + (". " + primary.name + (" is at " + (current + " left") + "."))
  }

  /**
   * One low item is named with its stock and threshold; several are counted,
   * and the first is named with its stock.
   */
  lemma RefillBodyMentions(items: seq<RefillItem>)
    requires |items| > 0
    ensures var body := RefillBody(items);
      var current := IntToString(OrZero(items[0].inventoryTotal));
      var threshold := IntToString(OrZero(items[0].lowInventoryThreshold));
      && Contains(body, items[0].name)
      && Contains(body, current + " left")
      && (|items| == 1 ==> Contains(body, " (" + (current + " left") + (", threshold " + threshold + ").")))
      && (|items| > 1 ==> Contains(body, NatToString(|items|) + " supplements"))
  {
    var name := items[0].name;
    var current := IntToString(OrZero(items[0].inventoryTotal));
    var threshold := IntToString(OrZero(items[0].lowInventoryThreshold));
    var lead := "You're running low on ";
    if |items| == 1 {
      var left := current + " left";
      var rest := ", threshold " + threshold + ").";
      var tail := " (" + left + rest;
      ContainsMiddle(lead, name, tail);
      ContainsEnd(lead + name, tail);
      ContainsMiddle(" (", left, rest);
      ContainsAfterPrefix(lead + name, tail, left);
    } else {
      var count := NatToString(|items|) + " supplements";
      var left := current + " left";
      var after := " is at " + left + ".";
      var mid := ". " + name + after;
      ContainsMiddle(lead, count, mid);
      ContainsMiddle(". ", name, after);
      ContainsAfterPrefix(lead + count, mid, name);
      ContainsMiddle(" is at ", left, ".");
      ContainsAfterPrefix(". " + name, after, left);
      ContainsAfterPrefix(lead + count, mid, left);
    }
  }

  /** The payload sent to an owner. */
  function RefillPayload(items: seq<RefillItem>): (p: PushActions.NotificationPayload)
    requires |items| > 0
    ensures p.tag == Some(RefillTag) && p.title == RefillTitle
    ensures p.data.Some? && Field(p.data.value, "supplementId") == JStr(items[0].id)
    ensures p.data.Some? && Field(p.data.value, "lowInventoryCount") == JNum(|items| as real)
  {
    PushActions.NotificationPayload(
      RefillTitle, RefillBody(items), None, None, None, Some(RefillTag),
      Some(map["supplementId" := JStr(items[0].id), "lowInventoryCount" := JNum(|items| as real)]),
      None, false, false)
  }

  /** `result.sentCount ?? 0`. */
  function SentCountOf(r: PushActions.SendResult): nat
  {
    if r.SendSuccess? then r.sentCount else 0
  }

  datatype UserResult = UserResult(userId: string, supplementCount: nat, sentCount: nat)

  /** The notifications, one per owner in order. */
  function Notices(owners: seq<string>, groups: map<string, seq<RefillItem>>): (r: seq<(string, PushActions.NotificationPayload)>)
    requires Grouped(owners, groups)
    ensures |r| == |owners|
  {
    if |owners| == 0 then []
    else
      var u := owners[|owners| - 1];
      Notices(owners[..|owners| - 1], groups) + [(u, RefillPayload(groups[u]))]
  }

  /** What each owner's send reported. */
  function Details(owners: seq<string>, groups: map<string, seq<RefillItem>>,
                   send: (string, PushActions.NotificationPayload) -> PushActions.SendResult): (r: seq<UserResult>)
    requires Grouped(owners, groups)
    ensures |r| == |owners|
  {
    if |owners| == 0 then []
    else
      var u := owners[|owners| - 1];
      Details(owners[..|owners| - 1], groups, send)
        + [UserResult(u, |groups[u]|, SentCountOf(send(u, RefillPayload(groups[u]))))]
  }

  /** The k-th notification goes to the k-th owner with that owner's payload. */
  lemma {:induction false} NoticesAt(owners: seq<string>, groups: map<string, seq<RefillItem>>, k: nat)
    requires Grouped(owners, groups) && k < |owners|
    ensures Notices(owners, groups)[k] == (owners[k], RefillPayload(groups[owners[k]]))
    decreases |owners|
  {
    if k < |owners| - 1 {
      NoticesAt(owners[..|owners| - 1], groups, k);
    }
  }

  /** The k-th detail reports the k-th owner's list size and what the send to that owner counted. */
  lemma {:induction false} DetailsAt(owners: seq<string>, groups: map<string, seq<RefillItem>>,
                                     send: (string, PushActions.NotificationPayload) -> PushActions.SendResult, k: nat)
    requires Grouped(owners, groups) && k < |owners|
    ensures Details(owners, groups, send)[k]
      == UserResult(owners[k], |groups[owners[k]]|, SentCountOf(send(owners[k], RefillPayload(groups[owners[k]]))))
    decreases |owners|
  {
    if k < |owners| - 1 {
      DetailsAt(owners[..|owners| - 1], groups, send, k);
    }
  }

  /**
   * Each owner of a low row is sent exactly one notification, tagged as a
   * refill reminder and pointing at the first of that owner's low rows.
   */
  lemma OneNoticePerOwner(rows: seq<SupplementRow>, i: nat, j: nat)
    requires i < j < |Owners(rows)|
    ensures var n := Notices(Owners(rows), Groups(rows));
      n[i].0 != n[j].0
      && n[i].1.tag == Some(RefillTag)
      && n[i].1.data.Some? && |ItemsOf(rows, n[i].0)| > 0
      && Field(n[i].1.data.value, "supplementId") == JStr(ItemsOf(rows, n[i].0)[0].id)
  {
    NoticesAt(Owners(rows), Groups(rows), i);
    NoticesAt(Owners(rows), Groups(rows), j);
  }

  /** Every owner with a low row is among the recipients. */
  lemma EveryOwnerNotified(rows: seq<SupplementRow>, k: nat)
    requires k < |rows|
    ensures exists i | 0 <= i < |Owners(rows)| :: Notices(Owners(rows), Groups(rows))[i].0 == rows[k].userId
  {
    Grouping.KeysMembers(rows, OwnerOf, rows[k].userId);
    var i :| 0 <= i < |Owners(rows)| && Owners(rows)[i] == rows[k].userId;
    NoticesAt(Owners(rows), Groups(rows), i);
  }

  function TotalSent(details: seq<UserResult>): nat
  {
    if |details| == 0 then 0 else TotalSent(details[..|details| - 1]) + details[|details| - 1].sentCount
  }

  /** One more owner adds that owner's notice and detail at the end. */
  lemma PrefixStep(owners: seq<string>, groups: map<string, seq<RefillItem>>,
                   send: (string, PushActions.NotificationPayload) -> PushActions.SendResult, i: nat)
    requires Grouped(owners, groups) && i < |owners|
    ensures Grouped(owners[..i + 1], groups)
    ensures var u := owners[i];
      Notices(owners[..i + 1], groups) == Notices(owners[..i], groups) + [(u, RefillPayload(groups[u]))]
      && Details(owners[..i + 1], groups, send)
        == Details(owners[..i], groups, send) + [UserResult(u, |groups[u]|, SentCountOf(send(u, RefillPayload(groups[u]))))]
  {
    assert owners[..i + 1][..i] == owners[..i];
  }

  lemma TotalSentStep(details: seq<UserResult>, entry: UserResult)
    ensures TotalSent(details + [entry]) == TotalSent(details) + entry.sentCount
  {
    assert (details + [entry])[..|details|] == details;
  }

  /**
   * The sending loop: one notification per owner, in the Map's key order,
   * summing what `sendNotification` reports.
   */
  method NotifyOwners(
    owners: seq<string>,
    groups: map<string, seq<RefillItem>>,
    send: (string, PushActions.NotificationPayload) -> PushActions.SendResult)
    returns (total: nat, details: seq<UserResult>, sent: seq<(string, PushActions.NotificationPayload)>)
    requires Grouped(owners, groups)
    ensures sent == Notices(owners, groups)
    ensures details == Details(owners, groups, send)
    ensures total == TotalSent(details)
  {
    total := 0;
    details := [];
    sent := [];
    for i := 0 to |owners|
      invariant Grouped(owners[..i], groups)
      invariant sent == Notices(owners[..i], groups)
      invariant details == Details(owners[..i], groups, send)
      invariant total == TotalSent(details)
    {
      var u := owners[i];
      PrefixStep(owners, groups, send, i);
      var items := groups[u];
      var payload := RefillPayload(items);
      var result := send(u, payload);
      var sentCount := SentCountOf(result);
      var entry := UserResult(u, |items|, sentCount);
      TotalSentStep(details, entry);
      total := total + sentCount;
      sent := sent + [(u, payload)];
      details := details + [entry];
    }
    assert owners[..|owners|] == owners;
  }

  // ---------------------------------------------------------------------------
  // The handler
  // ---------------------------------------------------------------------------

  datatype RefillResponse =
    | Unauthorized
    | ServerError(message: string)
    | NothingToDo(message: string)
    | Processed(usersWithLowInventory: nat, totalNotificationsSent: nat, details: seq<UserResult>)

  function StatusOf(r: RefillResponse): int
  {
    match r
    case Unauthorized => 401
    case ServerError(_) => 500
    case _ => 200
  }

  /** The cron secret is set and the request carries it as a bearer token. */
  predicate Authorized(authHeader: Option<string>, cronSecret: Option<string>)
  {
    TruthyStr(cronSecret) && authHeader == Some("Bearer " + cronSecret.value)
  }

  /**
   * The whole cron run. An unset or empty `CRON_SECRET` makes `getEnvVar`
   * throw, which the catch answers with 500. A failed read is answered with
   * 500 too.
   */
  method HandleRefill(
    authHeader: Option<string>,
    cronSecret: Option<string>,
    prefs: Option<seq<Preference>>,
    supplements: Option<seq<SupplementRow>>,
    send: (string, PushActions.NotificationPayload) -> PushActions.SendResult)
    returns (res: RefillResponse, sent: seq<(string, PushActions.NotificationPayload)>)
    ensures !TruthyStr(cronSecret) ==> res.ServerError? && sent == []
    ensures TruthyStr(cronSecret) && authHeader != Some("Bearer " + cronSecret.value) ==> res == Unauthorized && sent == []
    ensures res.Processed? ==>
      prefs.Some? && supplements.Some?
      && var low := LowSupplements(supplements.value, EnabledUserIds(prefs.value));
      var details := Details(Owners(low), Groups(low), send);
      |low| > 0
      && res == Processed(|Owners(low)|, TotalSent(details), details)
      && sent == Notices(Owners(low), Groups(low))
    ensures sent != [] ==> res.Processed?
    ensures Authorized(authHeader, cronSecret) && (prefs.None? || (|EnabledUserIds(prefs.value)| > 0 && supplements.None?))
      ==> res.ServerError? && sent == []
    ensures Authorized(authHeader, cronSecret) && prefs.Some? && |EnabledUserIds(prefs.value)| == 0
      ==> res == NothingToDo("No users with refill reminders enabled") && sent == []
    ensures Authorized(authHeader, cronSecret) && prefs.Some? && supplements.Some?
      ==> (res.Processed? <==> |LowSupplements(supplements.value, EnabledUserIds(prefs.value))| > 0)
    ensures Authorized(authHeader, cronSecret) && prefs.Some? && supplements.Some?
      && |LowSupplements(supplements.value, EnabledUserIds(prefs.value))| == 0
      ==> res.NothingToDo? && sent == []
  {
    sent := [];
    if !TruthyStr(cronSecret) {
      return ServerError("An unexpected error occurred while processing refill reminders"), sent;
    }
    if authHeader != Some("Bearer " + cronSecret.value) {
      return Unauthorized, sent;
    }
    if prefs.None? {
      return ServerError("Failed to fetch notification preferences"), sent;
    }
    var enabled := EnabledUserIds(prefs.value);
    if |enabled| == 0 {
      if supplements.Some? {
        NoneLowWithoutUsers(supplements.value, enabled);
      }
      return NothingToDo("No users with refill reminders enabled"), sent;
    }
    if supplements.None? {
      return ServerError("Failed to fetch supplements for refill reminders"), sent;
    }
    var low := LowSupplements(supplements.value, enabled);
    if |low| == 0 {
      return NothingToDo("No low-inventory supplements found"), sent;
    }
    var owners, groups := Grouping.GroupBy(low, OwnerOf, ItemOf);
    var total, details;
    total, details, sent := NotifyOwners(owners, groups, send);
    res := Processed(|owners|, total, details);
  }
}
