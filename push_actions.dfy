/**
 * The server side of push notifications in app/actions/push-notifications.ts:
 * the url a notification leads to, the payload sent to every subscription of
 * a user with its defaults, how many sends succeeded and which
 * subscriptions are dropped, and the subscription status of the signed-in
 * user. The web-push transport and the database are parameters: the outcome
 * of each send and the rows the queries return.
 */
module PushActions {
  import opened Common
  import opened Strings
  import ServiceWorker
  import JsText

  const AppIcon: string := "/icon-192x192.png"
  const DefaultTag: string := "pills-me-notification"
  const TodosUrl: string := "/todos"
  const SupplementsPath: string := "/supplements/"

  /** What the caller asks to send. */
  datatype NotificationPayload = NotificationPayload(
    title: string,
    body: string,
    icon: Option<string>,
    badge: Option<string>,
    url: Option<string>,
    tag: Option<string>,
    data: Option<map<string, JsValue>>,
    actions: Option<seq<string>>,
    requireInteraction: bool,
    silent: bool)

  /** `payload.data?.supplementId`, `undefined` without data. */
  function SupplementIdOf(p: NotificationPayload): JsValue
  {
    if p.data.Some? then Field(p.data.value, "supplementId") else JUndefined
  }

  predicate TagContains(tag: Option<string>, word: string)
  {
    TruthyStr(tag) && Contains(tag.value, word)
  }

  /**
   * The url used when the payload names none: a refill tag leads to the
   * supplement in a truthy `data.supplementId` (or the to-do list without
   * one), an app-update tag to the to-do list, any other payload carrying a
   * truthy supplement id and no url to that supplement, everything else to
   * the to-do list; the id is printed as JavaScript prints it.
   */
  function DefaultUrl(p: NotificationPayload, numText: real -> string): (r: string)
    ensures TagContains(p.tag, "refill") && Truthy(SupplementIdOf(p))
      ==> r == SupplementsPath + JsText.JsToString(SupplementIdOf(p), numText)
    ensures TagContains(p.tag, "refill") && !Truthy(SupplementIdOf(p)) ==> r == TodosUrl
    ensures TagContains(p.tag, "app-update") && !TagContains(p.tag, "refill") ==> r == TodosUrl
    ensures !TagContains(p.tag, "refill") && !TagContains(p.tag, "app-update") && Truthy(SupplementIdOf(p)) && !TruthyStr(p.url)
      ==> r == SupplementsPath + JsText.JsToString(SupplementIdOf(p), numText)
    ensures !TagContains(p.tag, "refill") && !TagContains(p.tag, "app-update") && (!Truthy(SupplementIdOf(p)) || TruthyStr(p.url))
      ==> r == TodosUrl
  {
    var id := ServiceWorker.IdText(SupplementIdOf(p), numText);
    if TagContains(p.tag, "refill") then
      if id.Some? then SupplementsPath + id.value else TodosUrl
    else if TagContains(p.tag, "app-update") then TodosUrl
    else if id.Some? && !TruthyStr(p.url) then SupplementsPath + id.value
    else TodosUrl
  }

  /** The JSON document sent to every subscription. */
  datatype OutgoingPayload = OutgoingPayload(
    title: string,
    body: string,
    icon: string,
    badge: string,
    url: string,
    data: map<string, JsValue>,
    actions: seq<string>,
    requireInteraction: bool,
    silent: bool,
    tag: string)

  /** `payload.x || fallback` for a string. */
  function Or(s: Option<string>, fallback: string): (r: string)
    ensures TruthyStr(s) ==> r == s.value
    ensures !TruthyStr(s) ==> r == fallback
  {
    if TruthyStr(s) then s.value else fallback
  }

  /** The payload with every default filled in: icons, url, empty data and actions, tag. */
  function Outgoing(p: NotificationPayload, numText: real -> string): (o: OutgoingPayload)
    ensures o.url == Or(p.url, DefaultUrl(p, numText)) && o.url != ""
    ensures o.icon == Or(p.icon, AppIcon) && o.badge == Or(p.badge, AppIcon)
    ensures o.tag == Or(p.tag, DefaultTag)
    ensures p.data.None? ==> o.data == map[]
    ensures p.actions.None? ==> o.actions == []
    ensures o.requireInteraction == p.requireInteraction && o.silent == p.silent
  {
    OutgoingPayload(
      p.title,
      p.body,
      Or(p.icon, AppIcon),
      Or(p.badge, AppIcon),
      Or(p.url, DefaultUrl(p, numText)),
      if p.data.Some? then p.data.value else map[],
      if p.actions.Some? then p.actions.value else [],
      p.requireInteraction,
      p.silent,
      Or(p.tag, DefaultTag))
  }

  /** The outgoing JSON as the service worker reads it back after parsing. */
  function Delivered(o: OutgoingPayload): ServiceWorker.PushData
  {
    ServiceWorker.PushData(
      Some(o.title), Some(o.body), Some(o.icon), None, Some(o.url), Some(o.tag), JUndefined,
      o.data, Some(o.actions), o.requireInteraction, o.silent)
  }

  /**
   * Server and worker agree: every payload the server sends carries a
   * non-empty url, so the worker leads the notification exactly there.
   */
  lemma WorkerFollowsServerUrl(p: NotificationPayload, numText: real -> string)
    ensures ServiceWorker.PushRedirect(Delivered(Outgoing(p, numText)), numText) == Outgoing(p, numText).url
  {
  }

  /** A stored subscription, identified by its push endpoint. */
  datatype Subscription = Subscription(endpoint: string)

  /** How one web-push send ended: delivered, or failed with an optional HTTP status. */
  datatype SendOutcome = Sent | Failed(statusCode: Option<int>, message: string)

  /** A send failed because the push service no longer knows the subscription (410 Gone). */
  predicate IsGone(o: SendOutcome)
  {
    o.Failed? && o.statusCode == Some(410)
  }

  /** The number of subscriptions whose send succeeded. */
  function SentCount(subscriptions: seq<Subscription>, send: Subscription -> SendOutcome): (n: nat)
    ensures n <= |subscriptions|
    ensures n == |subscriptions| <==> forall i | 0 <= i < |subscriptions| :: send(subscriptions[i]).Sent?
  {
    if |subscriptions| == 0 then 0
    else
      var init := subscriptions[..|subscriptions| - 1];
      SentCount(init, send) + (if send(subscriptions[|subscriptions| - 1]).Sent? then 1 else 0)
  }

  /** The endpoints whose subscription rows are deleted: those whose send came back 410. */
  function Removed(subscriptions: seq<Subscription>, send: Subscription -> SendOutcome): (r: seq<string>)
    ensures forall e :: e in r <==> exists i | 0 <= i < |subscriptions| ::
      subscriptions[i].endpoint == e && IsGone(send(subscriptions[i]))
  {
    if |subscriptions| == 0 then []
    else
      var init := subscriptions[..|subscriptions| - 1];
      var last := subscriptions[|subscriptions| - 1];
      var before := Removed(init, send);
      assert forall i | 0 <= i < |init| :: init[i] == subscriptions[i];
      before + (if IsGone(send(last)) then [last.endpoint] else [])
  }

  /** The result of `sendNotification`. */
  datatype SendResult = SendSuccess(sentCount: nat) | SendFailure(error: string)

  /**
   * `sendNotification`: a failed subscription query is an error; no
   * subscriptions is a success with nothing sent; otherwise every
   * subscription is sent the same payload and the successes are counted.
   * Also returns the endpoints deleted along the way.
   */
  function SendNotification(
    dbError: bool,
    subscriptions: Option<seq<Subscription>>,
    send: Subscription -> SendOutcome)
    : (r: (SendResult, seq<string>))
    ensures dbError ==> r.0 == SendFailure("Failed to retrieve subscriptions") && r.1 == []
    ensures !dbError && (subscriptions.None? || |subscriptions.value| == 0) ==> r.0 == SendSuccess(0) && r.1 == []
    ensures !dbError && subscriptions.Some? ==>
      r.0 == SendSuccess(SentCount(subscriptions.value, send)) && r.1 == Removed(subscriptions.value, send)
  {
    if dbError then (SendFailure("Failed to retrieve subscriptions"), [])
    else if subscriptions.None? || |subscriptions.value| == 0 then (SendSuccess(0), [])
    else (SendSuccess(SentCount(subscriptions.value, send)), Removed(subscriptions.value, send))
  }

  /** Sent and dropped subscriptions never add up to more than there are. */
  lemma {:induction false} SentAndRemovedBounded(subscriptions: seq<Subscription>, send: Subscription -> SendOutcome)
    ensures SentCount(subscriptions, send) + |Removed(subscriptions, send)| <= |subscriptions|
  {
    if |subscriptions| > 0 {
      SentAndRemovedBounded(subscriptions[..|subscriptions| - 1], send);
    }
  }

  /** The result of `getSubscriptionStatus`. */
  datatype SubscriptionStatus = SubscriptionStatus(subscribed: bool, count: nat)

  /**
   * `getSubscriptionStatus`: nothing without a session cookie, a verified
   * user or a successful count; otherwise the count (0 when the database
   * gives none) and whether it is positive.
   */
  function GetSubscriptionStatus(
    sessionToken: Option<string>,
    verifiedUid: Option<string>,
    dbError: bool,
    count: Option<nat>)
    : (r: SubscriptionStatus)
    ensures r.subscribed <==> r.count > 0
    ensures !TruthyStr(sessionToken) || !TruthyStr(verifiedUid) || dbError ==> r == SubscriptionStatus(false, 0)
    ensures TruthyStr(sessionToken) && TruthyStr(verifiedUid) && !dbError ==>
      r.count == (if count.Some? then count.value else 0)
  {
    if !TruthyStr(sessionToken) then SubscriptionStatus(false, 0)
    else if !TruthyStr(verifiedUid) then SubscriptionStatus(false, 0)
    else if dbError then SubscriptionStatus(false, 0)
    else
      var n := if count.Some? then count.value else 0;
      SubscriptionStatus(n > 0, n)
  }
}
