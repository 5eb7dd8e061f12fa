/**
 * The in-memory rate limiter for API endpoints: a store from
 * `<limitType>:<clientIP>` to a request count and the end of its window.
 * Time (`Date.now()`) and the 1% chance of sweeping expired entries
 * (`Math.random() < 0.01`) are inputs of the operations.
 */
module RateLimiter {
  import opened Common
  import opened Strings

  datatype LimitType = Auth | General

  datatype Config = Config(maxRequests: nat, windowMs: nat)

  const WindowMs: nat := 15 * 60 * 1000

  /** `RATE_LIMIT_CONFIGS`: five auth requests or a hundred general ones per fifteen minutes. */
  function ConfigFor(t: LimitType): (c: Config)
    ensures c.maxRequests >= 1 && c.windowMs == 900000
  {
    match t
    case Auth => Config(5, WindowMs)
    case General => Config(100, WindowMs)
  }

  function LimitName(t: LimitType): string
  {
    match t
    case Auth => "auth"
    case General => "general"
  }

  /** The store key of a client under a limit type. */
  function Key(t: LimitType, ip: string): string
  {
    LimitName(t) + ":" + ip
  }

  /** The limit type a key was made for, read back from its prefix. */
  function KeyType(key: string): Option<LimitType>
  {
    if StartsWith(key, "auth:") then Some(Auth)
    else if StartsWith(key, "general:") then Some(General)
    else None
  }

  lemma KeyTypeOfKey(t: LimitType, ip: string)
    ensures KeyType(Key(t, ip)) == Some(t)
  {
    var k := Key(t, ip);
    if t == General {
      assert k[..8] == "general:";
      assert k[0] != 'a';
    } else {
      assert k[..5] == "auth:";
    }
  }

  /** Request headers by lower-case name; a header that was not sent is absent. */
  type Headers = map<string, string>

  /** `request.headers.get(name)` read with JavaScript truthiness. */
  predicate HasHeader(h: Headers, name: string)
  {
    name in h && h[name] != ""
  }

  /**
   * `getClientIP`: the first hop of `x-forwarded-for`, trimmed; otherwise
   * `x-real-ip`; otherwise `cf-connecting-ip`; otherwise "unknown".
   */
  function GetClientIp(h: Headers): (ip: string)
    ensures HasHeader(h, "x-forwarded-for") ==> ip == Trim(Split(h["x-forwarded-for"], ',')[0])
    ensures !HasHeader(h, "x-forwarded-for") && HasHeader(h, "x-real-ip") ==> ip == h["x-real-ip"]
    ensures !HasHeader(h, "x-forwarded-for") && !HasHeader(h, "x-real-ip") && HasHeader(h, "cf-connecting-ip")
      ==> ip == h["cf-connecting-ip"]
    ensures !HasHeader(h, "x-forwarded-for") && !HasHeader(h, "x-real-ip") && !HasHeader(h, "cf-connecting-ip")
      ==> ip == "unknown"
  {
    if HasHeader(h, "x-forwarded-for") then Trim(Split(h["x-forwarded-for"], ',')[0])
    else if HasHeader(h, "x-real-ip") then h["x-real-ip"]
    else if HasHeader(h, "cf-connecting-ip") then h["cf-connecting-ip"]
    else "unknown"
  }

  /** Behind a chain of proxies the client is the first address of `x-forwarded-for`. */
  lemma ForwardedForFirstHop(h: Headers, client: string, proxies: string)
    requires ',' !in client
    requires "x-forwarded-for" in h && h["x-forwarded-for"] == client + "," + proxies
    ensures GetClientIp(h) == Trim(client)
  {
    SplitFirstPiece(client, proxies, ',');
  }

  datatype Entry = Entry(count: int, resetTime: int)

  datatype RateLimitResult = RateLimitResult(success: bool, retryAfter: int, remaining: int)

  /** `Math.ceil(ms / 1000)` for a non-negative number of milliseconds. */
  function CeilSeconds(ms: nat): (s: nat)
    ensures s * 1000 >= ms && (s == 0 || (s - 1) * 1000 < ms)
  {
    (ms + 999) / 1000
  }

  datatype Decision = Decision(result: RateLimitResult, entry: Entry)

  /** One request against the entry found for its key (if any) at time `now`. */
  function Decide(found: Option<Entry>, now: int, cfg: Config): (d: Decision)
    ensures found.None? || now > found.value.resetTime ==>
      d.result == RateLimitResult(true, 0, cfg.maxRequests - 1) && d.entry == Entry(1, now + cfg.windowMs)
    ensures found.Some? && now <= found.value.resetTime && found.value.count >= cfg.maxRequests ==>
      !d.result.success && d.result.remaining == 0 && d.entry == found.value
      && d.result.retryAfter * 1000 >= found.value.resetTime - now
      && (d.result.retryAfter == 0 || (d.result.retryAfter - 1) * 1000 < found.value.resetTime - now)
    ensures found.Some? && now <= found.value.resetTime && found.value.count < cfg.maxRequests ==>
      d.result.success && d.entry == Entry(found.value.count + 1, found.value.resetTime)
      && d.result.remaining == cfg.maxRequests - d.entry.count
  {
    if found.None? || now > found.value.resetTime then
      Decision(RateLimitResult(true, 0, cfg.maxRequests - 1), Entry(1, now + cfg.windowMs))
    else if found.value.count >= cfg.maxRequests then
      Decision(RateLimitResult(false, CeilSeconds(found.value.resetTime - now), 0), found.value)
    else
      var e := Entry(found.value.count + 1, found.value.resetTime);
      Decision(RateLimitResult(true, 0, cfg.maxRequests - e.count), e)
  }

  /** An entry within its limit stays within it, and a success always leaves a non-negative remainder. */
  lemma DecideKeepsBound(found: Option<Entry>, now: int, cfg: Config)
    requires cfg.maxRequests >= 1
    requires found.Some? ==> 1 <= found.value.count <= cfg.maxRequests
    ensures var d := Decide(found, now, cfg);
      1 <= d.entry.count <= cfg.maxRequests && (d.result.success ==> d.result.remaining >= 0)
  {
  }

  /** The number of successful requests among calls made at the times `nows`, starting from `found`. */
  function Successes(found: Option<Entry>, nows: seq<int>, cfg: Config): nat
    decreases |nows|
  {
    if |nows| == 0 then 0
    else
      var d := Decide(found, nows[0], cfg);
      (if d.result.success then 1 else 0) + Successes(Some(d.entry), nows[1..], cfg)
  }

  lemma {:induction false} SuccessesWithinWindow(e: Entry, nows: seq<int>, cfg: Config)
    requires 1 <= e.count <= cfg.maxRequests
    requires forall i :: 0 <= i < |nows| ==> nows[i] <= e.resetTime
    ensures Successes(Some(e), nows, cfg) <= cfg.maxRequests - e.count
    decreases |nows|
  {
    if |nows| > 0 {
      var d := Decide(Some(e), nows[0], cfg);
      assert d.entry.resetTime == e.resetTime;
      SuccessesWithinWindow(d.entry, nows[1..], cfg);
    }
  }

  /**
   * A client gets at most `maxRequests` successful requests in a window: of
   * any calls that start a fresh window at `nows[0]` and arrive before it
   * ends, no more than the limit succeed.
   */
  lemma AtMostMaxPerWindow(found: Option<Entry>, nows: seq<int>, cfg: Config)
    requires cfg.maxRequests >= 1 && |nows| > 0
    requires found.None? || nows[0] > found.value.resetTime
    requires forall i :: 0 <= i < |nows| ==> nows[i] <= nows[0] + cfg.windowMs
    ensures Successes(found, nows, cfg) <= cfg.maxRequests
  {
    var d := Decide(found, nows[0], cfg);
    SuccessesWithinWindow(d.entry, nows[1..], cfg);
  }

  datatype Status = Status(count: int, limit: int, remaining: int, resetTime: int)

  datatype Stats = Stats(totalEntries: nat, authEntries: nat, generalEntries: nat)

  /** Entries whose window has not ended at `now`. */
  function Unexpired(store: map<string, Entry>, now: int): (live: map<string, Entry>)
    ensures forall k :: k in live <==> k in store && now <= store[k].resetTime
    ensures forall k :: k in live ==> live[k] == store[k]
  {
    map k | k in store && now <= store[k].resetTime :: store[k]
  }

  function AuthKeys(store: map<string, Entry>): set<string>
  {
    set k | k in store && StartsWith(k, "auth:")
  }

  function GeneralKeys(store: map<string, Entry>): set<string>
  {
    set k | k in store && !StartsWith(k, "auth:") && StartsWith(k, "general:")
  }

  /** Taking `k` off the keys still to visit adds it to the visited part of `s` when it belongs to `s`. */
  lemma CountStep(s: set<string>, keys: set<string>, k: string)
    requires k in keys
    ensures k in s ==> |s - (keys - {k})| == |s - keys| + 1
    ensures k !in s ==> s - (keys - {k}) == s - keys
  {
    if k in s {
      assert s - (keys - {k}) == (s - keys) + {k};
    }
  }

  /** Every key names a limit type and every count is within that limit. */
  ghost predicate WellKept(store: map<string, Entry>)
  {
    forall k :: k in store ==>
      KeyType(k).Some? && 1 <= store[k].count <= ConfigFor(KeyType(k).value).maxRequests
  }

  /** Storing an entry within its key's limit keeps the store well kept. */
  lemma StoreKeepsWellKept(store: map<string, Entry>, key: string, e: Entry)
    requires WellKept(store)
    requires KeyType(key).Some? && 1 <= e.count <= ConfigFor(KeyType(key).value).maxRequests
    ensures WellKept(store[key := e])
  {
  }

  /** The module-level `rateLimitStore`. */
  class RateLimitStore {
    var store: map<string, Entry>

    /** Every entry was made by `checkRateLimit`: its key names a limit type and its count is within that limit. */
    ghost predicate Valid()
      reads this
    {
      WellKept(store)
    }

    constructor ()
      ensures store == map[] && Valid()
    {
      store := map[];
    }

    /** `cleanupExpiredEntries`: deletes every entry whose window ended before `now`. */
    method CleanupExpiredEntries(now: int)
      requires Valid()
      modifies this
      ensures Valid()
      ensures store == Unexpired(old(store), now)
    {
      var keys := store.Keys;
      while keys != {}
        invariant keys <= old(store).Keys
        invariant forall k :: k in store <==> k in old(store) && (k in keys || now <= old(store)[k].resetTime)
        invariant forall k :: k in store ==> store[k] == old(store)[k]
        decreases keys
      {
        var k :| k in keys;
        if now > store[k].resetTime {
          store := store - {k};
        }
        keys := keys - {k};
      }
    }

    /**
     * `checkRateLimit`: the first request of a window (or one after it
     * ended) opens a new window with count 1; a request at the limit is
     * refused with the seconds until the window ends; any other request is
     * counted. With `sweep` the expired entries are deleted first.
     */
    method CheckRateLimit(h: Headers, t: LimitType, now: int, sweep: bool) returns (result: RateLimitResult)
      requires Valid()
      modifies this
      ensures Valid()
      ensures var key := Key(t, GetClientIp(h));
        var before := if sweep then Unexpired(old(store), now) else old(store);
        var d := Decide(if key in before then Some(before[key]) else None, now, ConfigFor(t));
        result == d.result && store == before[key := d.entry]
    {
      var clientIp := GetClientIp(h);
      var key := Key(t, clientIp);
      KeyTypeOfKey(t, clientIp);
      if sweep {
        CleanupExpiredEntries(now);
      }
      result := CountRequest(key, t, now);
    }

    /** The counting part of `checkRateLimit`, on the entry stored under `key`. */
    method CountRequest(key: string, t: LimitType, now: int) returns (result: RateLimitResult)
      requires Valid() && KeyType(key) == Some(t)
      modifies this
      ensures Valid()
      ensures var d := Decide(if key in old(store) then Some(old(store)[key]) else None, now, ConfigFor(t));
        result == d.result && store == old(store)[key := d.entry]
    {
      var config := ConfigFor(t);
      var found := if key in store then Some(store[key]) else None;
      DecideKeepsBound(found, now, config);
      StoreKeepsWellKept(store, key, Decide(found, now, config).entry);
      if found.None? || now > found.value.resetTime {
        store := store[key := Entry(1, now + config.windowMs)];
        return RateLimitResult(true, 0, config.maxRequests - 1);
      }
      var entry := found.value;
      if entry.count >= config.maxRequests {
        var retryAfter := CeilSeconds(entry.resetTime - now);
        assert store == old(store)[key := entry];
        return RateLimitResult(false, retryAfter, 0);
      }
      entry := entry.(count := entry.count + 1);
      store := store[key := entry];
      result := RateLimitResult(true, 0, config.maxRequests - entry.count);
    }

    /** `getRateLimitStatus`: the client's count without counting this request. */
    function GetRateLimitStatus(h: Headers, t: LimitType, now: int): (st: Status)
      reads this
      ensures var key := Key(t, GetClientIp(h));
        (key !in store ==> st == Status(0, ConfigFor(t).maxRequests, ConfigFor(t).maxRequests, now + WindowMs))
        && (key in store ==> st.count == store[key].count && st.resetTime == store[key].resetTime)
      ensures st.limit == ConfigFor(t).maxRequests
      ensures st.remaining >= 0 && st.remaining >= st.limit - st.count
      ensures st.remaining == 0 || st.remaining == st.limit - st.count
    {
      var cfg := ConfigFor(t);
      var key := Key(t, GetClientIp(h));
      if key !in store then Status(0, cfg.maxRequests, cfg.maxRequests, now + cfg.windowMs)
      else
        var e := store[key];
        var rest := cfg.maxRequests - e.count;
        Status(e.count, cfg.maxRequests, if rest > 0 then rest else 0, e.resetTime)
    }

    /** In a valid store a tracked client has used at least one request of its limit. */
    lemma StatusBelowLimit(h: Headers, t: LimitType, now: int)
      requires Valid() && Key(t, GetClientIp(h)) in store
      ensures GetRateLimitStatus(h, t, now).remaining < ConfigFor(t).maxRequests
    {
      KeyTypeOfKey(t, GetClientIp(h));
    }

    /** `resetRateLimit`: forgets the client's entry under that limit type. */
    method ResetRateLimit(h: Headers, t: LimitType)
      requires Valid()
      modifies this
      ensures Valid()
      ensures store == old(store) - {Key(t, GetClientIp(h))}
    {
      var key := Key(t, GetClientIp(h));
      store := store - {key};
    }

    /** `getRateLimiterStats`: how many entries there are, and how many of each limit type. */
    method GetRateLimiterStats() returns (stats: Stats)
      ensures stats.totalEntries == |store|
      ensures stats.authEntries == |AuthKeys(store)|
      ensures stats.generalEntries == |GeneralKeys(store)|
    {
      var authEntries, generalEntries := 0, 0;
      var keys := store.Keys;
      while keys != {}
        invariant keys <= store.Keys
        invariant authEntries == |AuthKeys(store) - keys|
        invariant generalEntries == |GeneralKeys(store) - keys|
        decreases keys
      {
        var k :| k in keys;
        CountStep(AuthKeys(store), keys, k);
        CountStep(GeneralKeys(store), keys, k);
        if StartsWith(k, "auth:") {
          authEntries := authEntries + 1;
        } else if StartsWith(k, "general:") {
          generalEntries := generalEntries + 1;
        }
        keys := keys - {k};
      }
      stats := Stats(|store|, authEntries, generalEntries);
    }

    /** In a valid store every entry is an auth or a general one, so the two counts add up to the total. */
    lemma StatsPartition()
      requires Valid()
      ensures |AuthKeys(store)| + |GeneralKeys(store)| == |store|
    {
      assert AuthKeys(store) + GeneralKeys(store) == store.Keys;
      assert AuthKeys(store) * GeneralKeys(store) == {};
    }
  }
}
