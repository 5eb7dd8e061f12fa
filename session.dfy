/**
 * Signed session tokens (lib/session.ts): a token is the base64url text of
 * the JSON payload `{uid, iat, exp}`, a `.`, and the base64url HMAC-SHA-256
 * of that text under the `APP_SESSION_SECRET`; and the `Set-Cookie` value
 * that carries it.
 *
 * JSON, UTF-8 and the HMAC itself come from the runtime and are parameters
 * here (`Runtime`); the clock is the `nowMs` argument (`Date.now()`), and the
 * environment variables are the `Option<string>` arguments.
 */
module Session {
  import opened Common
  import opened Strings
  import opened Base64

  /** Seven days, the default lifetime of a token, in seconds. */
  const DefaultMaxAgeSeconds: int := 60 * 60 * 24 * 7

  const SecretMissing := "APP_SESSION_SECRET is not set"

  /** The payload a token signs. */
  datatype SessionPayload = SessionPayload(uid: string, iat: int, exp: int)

  /** What a verified token yields: the parsed payload object, with its checked fields. */
  datatype VerifiedSession = VerifiedSession(uid: string, exp: real, fields: map<string, JsValue>)

  /** The primitives the runtime supplies. */
  datatype Runtime = Runtime(
    /** `JSON.stringify` of a payload. */
    stringify: SessionPayload -> string,
    /** `JSON.parse`; `None` where it throws. */
    parse: string -> Option<JsValue>,
    /** `TextEncoder.encode`. */
    utf8Encode: string -> seq<Byte>,
    /** `TextDecoder.decode` (which replaces malformed input and never throws). */
    utf8Decode: seq<Byte> -> string,
    /** HMAC-SHA-256 of a message (second argument) under a raw key (first argument). */
    hmac: (seq<Byte>, seq<Byte>) -> seq<Byte>)

  /** The JSON object a payload is written as. */
  function PayloadObject(p: SessionPayload): JsValue
  {
    JObject(map["uid" := JStr(p.uid), "iat" := JNum(p.iat as real), "exp" := JNum(p.exp as real)])
  }

  /** The runtime reads back, as the object it was written from, the JSON text it wrote for `p`. */
  predicate JsonRoundTrips(rt: Runtime, p: SessionPayload)
  {
    rt.parse(rt.utf8Decode(rt.utf8Encode(rt.stringify(p)))) == Some(PayloadObject(p))
  }

  /** `getSecret`: the secret, or an error when it is unset or empty. */
  function GetSecret(env: Option<string>): (r: Outcome<string>)
    ensures r.Returned? <==> TruthyStr(env)
    ensures r.Returned? ==> r.value == env.value
    ensures r.Threw? ==> r.message == SecretMissing
  {
    if TruthyStr(env) then Returned(env.value) else Threw(SecretMissing)
  }

  /** `hmacSha256`: the signature of a message, in base64url. */
  function Signature(message: string, secret: string, rt: Runtime): (sig: string)
    ensures '.' !in sig
  {
    NoDotInEncodeUrl(rt.hmac(rt.utf8Encode(secret), rt.utf8Encode(message)));
    EncodeUrl(rt.hmac(rt.utf8Encode(secret), rt.utf8Encode(message)))
  }

  /** `Math.floor(Date.now() / 1000)`. */
  function NowSeconds(nowMs: int): (s: int)
    ensures s * 1000 <= nowMs < s * 1000 + 1000
  {
    nowMs / 1000
  }

  /** The payload of a token issued at `nowMs` for `maxAgeSeconds`. */
  function IssuedPayload(userId: string, maxAgeSeconds: int, nowMs: int): (p: SessionPayload)
    ensures p.uid == userId && p.exp - p.iat == maxAgeSeconds
  {
    var now := NowSeconds(nowMs);
    SessionPayload(userId, now, now + maxAgeSeconds)
  }

  /** The first half of a token: the base64url text of the payload's JSON. */
  function PayloadPart(p: SessionPayload, rt: Runtime): (s: string)
    ensures '.' !in s
  {
    NoDotInEncodeUrl(rt.utf8Encode(rt.stringify(p)));
    EncodeUrl(rt.utf8Encode(rt.stringify(p)))
  }

  /**
   * `createSessionToken`: the payload part, a `.`, and its signature; it
   * throws when the secret is not set.
   */
  function CreateSessionToken(userId: string, maxAgeSeconds: int, nowMs: int, secretEnv: Option<string>, rt: Runtime): (r: Outcome<string>)
    ensures r.Threw? <==> !TruthyStr(secretEnv)
    ensures r.Returned? ==>
      var payloadB64 := PayloadPart(IssuedPayload(userId, maxAgeSeconds, nowMs), rt);
      Split(r.value, '.') == [payloadB64, Signature(payloadB64, secretEnv.value, rt)]
  {
    var payloadB64 := PayloadPart(IssuedPayload(userId, maxAgeSeconds, nowMs), rt);
    var secret := GetSecret(secretEnv);
    if secret.Threw? then Threw(secret.message)
    else
      var signature := Signature(payloadB64, secret.value, rt);
      SplitTwo(payloadB64, signature, '.');
      Returned(payloadB64 + "." + signature)
  }

  /** The fields of the object a payload part decodes and parses to; `None` where that throws or gives no object. */
  function DecodedObject(payloadB64: string, rt: Runtime): Option<map<string, JsValue>>
  {
    var bytes := DecodeUrl(payloadB64);
    if bytes.None? then None
    else
      var parsed := rt.parse(rt.utf8Decode(bytes.value));
      if parsed.None? || !parsed.value.JObject? then None
      else Some(parsed.value.fields)
  }

  /**
   * The checks after the signature: decode, parse, require a string `uid`
   * and a number `exp`, and refuse an `exp` that is not in the future.
   * Anything that throws on the way reads as `null`.
   */
  function ReadPayload(payloadB64: string, nowMs: int, rt: Runtime): (r: Option<VerifiedSession>)
    ensures r.Some? ==> r.value.exp > NowSeconds(nowMs) as real
    ensures r.Some? <==>
      DecodedObject(payloadB64, rt).Some?
      && var fields := DecodedObject(payloadB64, rt).value;
      Field(fields, "uid").JStr? && Field(fields, "exp").JNum? && Field(fields, "exp").n > NowSeconds(nowMs) as real
    ensures r.Some? ==>
      var fields := DecodedObject(payloadB64, rt).value;
      r.value == VerifiedSession(Field(fields, "uid").s, Field(fields, "exp").n, fields)
  {
    match DecodedObject(payloadB64, rt)
    case None => None
    case Some(fields) =>
      var uid, exp := Field(fields, "uid"), Field(fields, "exp");
      if !uid.JStr? || !exp.JNum? then None
      else if exp.n <= NowSeconds(nowMs) as real then None
      else Some(VerifiedSession(uid.s, exp.n, fields))
  }

  /**
   * `verifySessionToken`: `null` (`None`) unless the token is two parts
   * whose second is the signature of the first and whose payload is
   * unexpired; it throws when the token has two parts and the secret is not
   * set.
   */
  function VerifySessionToken(token: string, nowMs: int, secretEnv: Option<string>, rt: Runtime): (r: Outcome<Option<VerifiedSession>>)
    ensures r.Threw? <==> |Split(token, '.')| == 2 && !TruthyStr(secretEnv)
    ensures r.Threw? ==> r.message == SecretMissing
    ensures |Split(token, '.')| != 2 ==> r == Returned(None)
    ensures |Split(token, '.')| == 2 && TruthyStr(secretEnv) ==>
      var parts := Split(token, '.');
      (parts[1] != Signature(parts[0], secretEnv.value, rt) ==> r == Returned(None))
      && (parts[1] == Signature(parts[0], secretEnv.value, rt) ==> r == Returned(ReadPayload(parts[0], nowMs, rt)))
  {
    var parts := Split(token, '.');
    if |parts| != 2 then Returned(None)
    else
      var secret := GetSecret(secretEnv);
      if secret.Threw? then Threw(secret.message)
      else if parts[1] != Signature(parts[0], secret.value, rt) then Returned(None)
      else Returned(ReadPayload(parts[0], nowMs, rt))
  }

  /**
   * Only signed, unexpired tokens are accepted: an accepted token is a
   * payload part, a `.`, and that part's signature under the secret.
   */
  lemma AcceptedTokenIsSigned(token: string, nowMs: int, secretEnv: Option<string>, rt: Runtime)
    requires VerifySessionToken(token, nowMs, secretEnv, rt).Returned?
    requires VerifySessionToken(token, nowMs, secretEnv, rt).value.Some?
    ensures TruthyStr(secretEnv)
    ensures var parts := Split(token, '.');
      |parts| == 2 && token == parts[0] + "." + parts[1]
      && parts[1] == Signature(parts[0], secretEnv.value, rt)
    ensures VerifySessionToken(token, nowMs, secretEnv, rt).value.value.exp > NowSeconds(nowMs) as real
  {
    SplitJoin(token, '.');
    var parts := Split(token, '.');
    assert Join(parts, ".") == parts[0] + "." + Join(parts[1..], ".");
  }

  /** An issued token passes the signature check, so what it verifies as is what its payload part reads as. */
  lemma IssuedTokenIsSigned(userId: string, maxAgeSeconds: int, issuedMs: int, nowMs: int, secretEnv: Option<string>, rt: Runtime)
    requires CreateSessionToken(userId, maxAgeSeconds, issuedMs, secretEnv, rt).Returned?
    ensures var token := CreateSessionToken(userId, maxAgeSeconds, issuedMs, secretEnv, rt).value;
      VerifySessionToken(token, nowMs, secretEnv, rt)
        == Returned(ReadPayload(PayloadPart(IssuedPayload(userId, maxAgeSeconds, issuedMs), rt), nowMs, rt))
  {
  }

  /** The payload part of `p` reads back as `p` while it is unexpired, and as nothing after. */
  lemma ReadPayloadPart(p: SessionPayload, nowMs: int, rt: Runtime)
    requires JsonRoundTrips(rt, p)
    ensures ReadPayload(PayloadPart(p, rt), nowMs, rt)
      == if NowSeconds(nowMs) < p.exp then Some(VerifiedSession(p.uid, p.exp as real, PayloadObject(p).fields)) else None
  {
    DecodeEncodeUrl(rt.utf8Encode(rt.stringify(p)));
    var fields := PayloadObject(p).fields;
    assert Field(fields, "uid") == JStr(p.uid);
    assert Field(fields, "exp") == JNum(p.exp as real);
  }

  /** A token verifies, before it expires, as the payload it was issued with. */
  lemma IssuedTokenVerifies(userId: string, maxAgeSeconds: int, issuedMs: int, nowMs: int, secretEnv: Option<string>, rt: Runtime)
    requires CreateSessionToken(userId, maxAgeSeconds, issuedMs, secretEnv, rt).Returned?
    requires JsonRoundTrips(rt, IssuedPayload(userId, maxAgeSeconds, issuedMs))
    requires NowSeconds(nowMs) < IssuedPayload(userId, maxAgeSeconds, issuedMs).exp
    ensures var token := CreateSessionToken(userId, maxAgeSeconds, issuedMs, secretEnv, rt).value;
      var p := IssuedPayload(userId, maxAgeSeconds, issuedMs);
      VerifySessionToken(token, nowMs, secretEnv, rt) == Returned(Some(VerifiedSession(userId, p.exp as real, PayloadObject(p).fields)))
  {
    IssuedTokenIsSigned(userId, maxAgeSeconds, issuedMs, nowMs, secretEnv, rt);
    ReadPayloadPart(IssuedPayload(userId, maxAgeSeconds, issuedMs), nowMs, rt);
  }

  /** Once its `exp` is reached, an issued token no longer verifies. */
  lemma IssuedTokenExpires(userId: string, maxAgeSeconds: int, issuedMs: int, nowMs: int, secretEnv: Option<string>, rt: Runtime)
    requires CreateSessionToken(userId, maxAgeSeconds, issuedMs, secretEnv, rt).Returned?
    requires JsonRoundTrips(rt, IssuedPayload(userId, maxAgeSeconds, issuedMs))
    requires NowSeconds(nowMs) >= IssuedPayload(userId, maxAgeSeconds, issuedMs).exp
    ensures var token := CreateSessionToken(userId, maxAgeSeconds, issuedMs, secretEnv, rt).value;
      VerifySessionToken(token, nowMs, secretEnv, rt) == Returned(None)
  {
    IssuedTokenIsSigned(userId, maxAgeSeconds, issuedMs, nowMs, secretEnv, rt);
    ReadPayloadPart(IssuedPayload(userId, maxAgeSeconds, issuedMs), nowMs, rt);
  }

  /** `(EXPECTED_ORIGIN || "").split(",").map(trim).some(startsWith "https://")` over the pieces. */
  function AnyHttps(origins: seq<string>): (b: bool)
    ensures b <==> exists k :: 0 <= k < |origins| && StartsWith(Trim(origins[k]), "https://")
  {
    if |origins| == 0 then false
    else StartsWith(Trim(origins[0]), "https://") || AnyHttps(origins[1..])
  }

  /**
   * The cookie is `Secure` in production or when an expected origin is
   * served over https; without an origin list only production counts, and a
   * single origin counts when, trimmed, it starts with `https://`.
   */
  function ShouldSecure(nodeEnv: Option<string>, expectedOrigin: Option<string>): (r: bool)
    ensures nodeEnv == Some("production") ==> r
    ensures !TruthyStr(expectedOrigin) ==> (r <==> nodeEnv == Some("production"))
    ensures TruthyStr(expectedOrigin) && ',' !in expectedOrigin.value ==>
      (r <==> nodeEnv == Some("production") || StartsWith(Trim(expectedOrigin.value), "https://"))
  {
    var list := if TruthyStr(expectedOrigin) then expectedOrigin.value else "";
    var pieces := Split(list, ',');
    assert ',' !in list ==> pieces == [list] by {
      if ',' !in list {
        SplitNoSeparator(list, ',');
      }
    }
    nodeEnv == Some("production") || AnyHttps(pieces)
  }

  /** `createSessionCookie`: the `Set-Cookie` value for a token. */
  function SessionCookie(token: string, maxAgeSeconds: int, nodeEnv: Option<string>, expectedOrigin: Option<string>): (r: string)
    ensures StartsWith(r, "pm_session=" + token + "; ")
    ensures ';' !in token ==> Split(r, ';')[0] == "pm_session=" + token
    ensures ShouldSecure(nodeEnv, expectedOrigin) ==> EndsWith(r, "; Secure")
    ensures !ShouldSecure(nodeEnv, expectedOrigin) ==> EndsWith(r, "Max-Age=" + IntToString(maxAgeSeconds))
    ensures EndsWith(r, "; Secure") <==> ShouldSecure(nodeEnv, expectedOrigin)
    ensures r == "pm_session=" + token + CookieAttributes + IntToString(maxAgeSeconds)
      + (if ShouldSecure(nodeEnv, expectedOrigin) then "; Secure" else "")
  {
    var age := "Max-Age=" + IntToString(maxAgeSeconds);
    var parts := ["pm_session=" + token, "Path=/", "HttpOnly", "SameSite=Lax", age];
    var secure := ShouldSecure(nodeEnv, expectedOrigin);
    var all := if secure then parts + ["Secure"] else parts;
    CookieHead(all);
    CookieEnd(all, age, secure);
    CookieText(token, IntToString(maxAgeSeconds), secure);
    Join(all, "; ")
  }

  /** The attributes between the token and the lifetime, with their separators. */
  const CookieAttributes: string := "; Path=/; HttpOnly; SameSite=Lax; Max-Age="

  /** The joined cookie parts, written out. */
  lemma CookieText(token: string, seconds: string, secure: bool)
    ensures var parts := ["pm_session=" + token, "Path=/", "HttpOnly", "SameSite=Lax", "Max-Age=" + seconds];
      Join(if secure then parts + ["Secure"] else parts, "; ")
        == "pm_session=" + token + CookieAttributes + seconds + (if secure then "; Secure" else "")
  {
    var tail := if secure then "; Secure" else "";
    var parts := ["pm_session=" + token, "Path=/", "HttpOnly", "SameSite=Lax", "Max-Age=" + seconds];
    var all := if secure then parts + ["Secure"] else parts;
    assert Join(all[4..], "; ") == "Max-Age=" + seconds + tail by {
      if secure {
        assert all[4..] == ["Max-Age=" + seconds, "Secure"];
        assert all[5..] == ["Secure"];
      } else {
        assert all[4..] == ["Max-Age=" + seconds];
      }
    }
    var j4 := Join(all[4..], "; ");
    assert Join(all[3..], "; ") == "SameSite=Lax" + "; " + j4 by { assert all[3..][1..] == all[4..]; }
    assert Join(all[2..], "; ") == "HttpOnly" + "; " + ("SameSite=Lax" + "; " + j4) by { assert all[2..][1..] == all[3..]; }
    assert Join(all[1..], "; ") == "Path=/" + "; " + ("HttpOnly" + "; " + ("SameSite=Lax" + "; " + j4)) by { assert all[1..][1..] == all[2..]; }
    assert Join(all, "; ") == ("pm_session=" + token) + "; " + ("Path=/" + "; " + ("HttpOnly" + "; " + ("SameSite=Lax" + "; " + j4)));
    AttributesText();
  }

  /** The literal attribute parts and separators spell `CookieAttributes`. */
  lemma AttributesText()
    ensures "; " + ("Path=/" + "; " + ("HttpOnly" + "; " + ("SameSite=Lax" + "; " + "Max-Age="))) == CookieAttributes
  {
  }

  /** The cookie text begins with its first part, and `;` ends that part. */
  lemma CookieHead(all: seq<string>)
    requires |all| >= 2
    ensures StartsWith(Join(all, "; "), all[0] + "; ")
    ensures ';' !in all[0] ==> Split(Join(all, "; "), ';')[0] == all[0]
  {
    var rest := Join(all[1..], "; ");
    var r := Join(all, "; ");
    assert r == (all[0] + "; ") + rest;
    ConcatEnds(all[0] + "; ", rest);
    if ';' !in all[0] {
      SeparatorSplits(all[0], rest);
      SplitFirstPiece(all[0], [' '] + rest, ';');
    }
  }

  /** The `"; "` between two parts is a `;` followed by a space. */
  lemma SeparatorSplits(x: string, y: string)
    ensures (x + "; ") + y == x + [';'] + ([' '] + y)
  {
    assert "; " == [';', ' '];
  }

  /** The cookie text ends with `Secure` when it is the last part, and with the `Max-Age` part otherwise. */
  lemma CookieEnd(all: seq<string>, age: string, secure: bool)
    requires |all| == (if secure then 6 else 5) && all[4] == age
    requires secure ==> all[5] == "Secure"
    requires |age| > 0 && age[|age| - 1] != 'e'
    ensures secure ==> EndsWith(Join(all, "; "), "; Secure")
    ensures !secure ==> EndsWith(Join(all, "; "), age)
    ensures EndsWith(Join(all, "; "), "; Secure") <==> secure
  {
    JoinLast(all, "; ");
    var front := Join(all[..|all| - 1], "; ");
    if secure {
      EndsWithSecure(front);
    } else {
      EndsWithAge(front, age);
    }
  }

  lemma EndsWithSecure(front: string)
    ensures EndsWith(front + "; " + "Secure", "; Secure")
  {
    assert front + "; " + "Secure" == front + "; Secure";
    ConcatEnds(front, "; Secure");
  }

  /** A text ending in a part whose last letter is not `e` ends in that part and not in `; Secure`. */
  lemma EndsWithAge(front: string, age: string)
    requires |age| > 0 && age[|age| - 1] != 'e'
    ensures EndsWith(front + "; " + age, age) && !EndsWith(front + "; " + age, "; Secure")
  {
    var r := front + "; " + age;
    ConcatEnds(front + "; ", age);
    assert r[|r| - 1] == age[|age| - 1];
    assert "; Secure"[7] == 'e';
  }
}
