/**
 * The combined push-subscription status of lib/hooks/push-subscription.ts:
 * what the server knows, what the browser reports, and the three flags the
 * settings screen acts on.
 */
module PushStatus {
  import Notifications

  type Permission = Notifications.Permission

  /** How looking up the browser's push subscription went. */
  datatype BrowserLookup = LookupThrew | NoRegistration | Registered(hasSubscription: bool)

  /** What the browser offers: the Notification API, a service worker with PushManager, and the lookup. */
  datatype Browser = Browser(
    hasNotificationApi: bool,
    permission: Permission,
    hasPushSupport: bool,
    lookup: BrowserLookup)

  datatype ComprehensiveSubscriptionStatus = ComprehensiveSubscriptionStatus(
    hasServerSubscription: bool,
    subscriptionCount: nat,
    browserPermission: Permission,
    hasBrowserSubscription: bool,
    isFullyEnabled: bool,
    needsBrowserPermission: bool,
    needsResubscription: bool)

  /** The permission the hook sees: "default" without the Notification API. */
  function BrowserPermission(b: Browser): (p: Permission)
    ensures !b.hasNotificationApi ==> p == Notifications.Undecided
    ensures b.hasNotificationApi ==> p == b.permission
  {
    if b.hasNotificationApi then b.permission else Notifications.Undecided
  }

  /** Whether the browser holds a subscription: false unless every API exists and the lookup finds one. */
  function HasBrowserSubscription(b: Browser): (r: bool)
    ensures r <==> b.hasNotificationApi && b.hasPushSupport && b.lookup == Registered(true)
  {
    if b.hasNotificationApi && b.hasPushSupport then
      match b.lookup
      case Registered(has) => has
      case _ => false
    else false
  }

  /** `usePushSubscriptionStatus`'s query: the server status combined with the browser's. */
  function Status(serverSubscribed: bool, serverCount: nat, b: Browser): (s: ComprehensiveSubscriptionStatus)
    ensures s.isFullyEnabled <==>
      serverSubscribed && BrowserPermission(b) == Notifications.Granted && HasBrowserSubscription(b)
    ensures s.needsBrowserPermission <==> BrowserPermission(b) != Notifications.Granted
    ensures s.needsResubscription <==>
      serverSubscribed && BrowserPermission(b) == Notifications.Granted && !HasBrowserSubscription(b)
    ensures s.subscriptionCount == serverCount && s.hasServerSubscription == serverSubscribed
  {
    var browserPermission := BrowserPermission(b);
    var hasBrowserSubscription := HasBrowserSubscription(b);
    var granted := browserPermission == Notifications.Granted;
    ComprehensiveSubscriptionStatus(
      serverSubscribed,
      serverCount,
      browserPermission,
      hasBrowserSubscription,
      serverSubscribed && granted && hasBrowserSubscription,
      !granted,
      serverSubscribed && granted && !hasBrowserSubscription)
  }

  /** At most one of the three flags is ever set. */
  lemma FlagsExclusive(serverSubscribed: bool, serverCount: nat, b: Browser)
    ensures var s := Status(serverSubscribed, serverCount, b);
      !(s.isFullyEnabled && s.needsBrowserPermission)
      && !(s.isFullyEnabled && s.needsResubscription)
      && !(s.needsBrowserPermission && s.needsResubscription)
  {
  }

  /** A server subscription with permission granted is either fully enabled or needs resubscribing. */
  lemma GrantedServerSubscriptionDecided(serverCount: nat, b: Browser)
    requires BrowserPermission(b) == Notifications.Granted
    ensures var s := Status(true, serverCount, b); s.isFullyEnabled != s.needsResubscription
  {
  }
}
