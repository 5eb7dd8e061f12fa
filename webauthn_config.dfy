/**
 * The relying-party configuration of the passkey flows, read from the
 * environment with defaults, and the option defaults shared by registration
 * and authentication. `NEXT_PUBLIC_EXPECTED_ORIGIN` may list several origins
 * separated by commas.
 */
module WebAuthnConfig {
  import opened Strings

  /** `expectedOrigin`: `undefined`, one origin, or several in order. */
  datatype ExpectedOrigin = Undefined | Single(origin: string) | Several(origins: seq<string>)

  datatype RPConfig = RPConfig(rpId: string, expectedOrigin: ExpectedOrigin, rpName: string)

  const DefaultRpId: string := "localhost"
  const DefaultRpName: string := "PillsMe"
  const DefaultOrigin: string := "http://localhost:3000"

  /** `process.env[name] || fallback`: the value when set and non-empty. */
  function EnvOr(env: map<string, string>, name: string, fallback: string): (r: string)
    ensures name in env && env[name] != "" ==> r == env[name]
    ensures !(name in env && env[name] != "") ==> r == fallback
  {
    if name in env && env[name] != "" then env[name] else fallback
  }

  /** `.map((s) => s.trim())`. */
  function TrimAll(pieces: seq<string>): (trimmed: seq<string>)
    ensures |trimmed| == |pieces|
    ensures forall k | 0 <= k < |pieces| :: trimmed[k] == Trim(pieces[k])
  {
    seq(|pieces|, k requires 0 <= k < |pieces| => Trim(pieces[k]))
  }

  /** `.filter(Boolean)` on strings: the non-empty ones, in order. */
  function NonEmpty(parts: seq<string>): (kept: seq<string>)
    ensures |kept| <= |parts|
    ensures forall k | 0 <= k < |kept| :: kept[k] != "" && kept[k] in parts
  {
    if |parts| == 0 then []
    else
      var last := parts[|parts| - 1];
      NonEmpty(parts[..|parts| - 1]) + (if last == "" then [] else [last])
  }

  /** The filter keeps exactly the non-empty strings. */
  lemma {:induction false} NonEmptyMembers(parts: seq<string>, p: string)
    ensures p in NonEmpty(parts) <==> p in parts && p != ""
    decreases |parts|
  {
    if |parts| > 0 {
      var init := parts[..|parts| - 1];
      NonEmptyMembers(init, p);
      assert parts == init + [parts[|parts| - 1]];
    }
  }

  /** Strings that are all non-empty pass the filter unchanged. */
  lemma {:induction false} NonEmptyKeepsAll(parts: seq<string>)
    requires forall k | 0 <= k < |parts| :: parts[k] != ""
    ensures NonEmpty(parts) == parts
    decreases |parts|
  {
    if |parts| > 0 {
      var init := parts[..|parts| - 1];
      NonEmptyKeepsAll(init);
      assert parts == init + [parts[|parts| - 1]];
    }
  }

  /**
   * The origins listed in the variable: the pieces between commas, trimmed,
   * without the empty ones; so each is non-empty and has no edge whitespace.
   */
  function OriginParts(value: string): (r: seq<string>)
    ensures forall k | 0 <= k < |r| :: r[k] != "" && NoEdgeWhitespace(r[k])
  {
    NonEmpty(TrimAll(Split(value, ',')))
  }

  /** A listed origin is exactly a comma-separated piece that is not blank, trimmed; so it has no edge whitespace. */
  lemma OriginPartsMembers(value: string, p: string)
    ensures p in OriginParts(value)
      <==> p != "" && exists k | 0 <= k < |Split(value, ',')| :: Trim(Split(value, ',')[k]) == p
    ensures p in OriginParts(value) ==> NoEdgeWhitespace(p) && ',' !in p
  {
    var pieces := Split(value, ',');
    NonEmptyMembers(TrimAll(pieces), p);
    if p in TrimAll(pieces) {
      var k :| 0 <= k < |pieces| && TrimAll(pieces)[k] == p;
      TrimIsInfix(pieces[k]);
    }
  }

  /** `parts.length > 1 ? parts : parts[0]`, where `parts[0]` of no parts is `undefined`. */
  function ExpectedOriginOf(parts: seq<string>): (e: ExpectedOrigin)
    ensures e.Undefined? <==> |parts| == 0
    ensures e.Single? <==> |parts| == 1
    ensures e.Single? ==> e.origin == parts[0]
    ensures e.Several? ==> e.origins == parts && |parts| > 1
  {
    if |parts| > 1 then Several(parts)
    else if |parts| == 1 then Single(parts[0])
    else Undefined
  }

  /**
   * `getRPConfig`: the RP id and name are never empty; without an origin
   * variable the default origin is the only one; and every expected origin
   * is non-empty and has no edge whitespace.
   */
  function GetRPConfig(env: map<string, string>): (r: RPConfig)
    ensures r.rpId != "" && r.rpName != ""
    ensures !("NEXT_PUBLIC_EXPECTED_ORIGIN" in env && env["NEXT_PUBLIC_EXPECTED_ORIGIN"] != "") ==>
      r.expectedOrigin == Single(DefaultOrigin)
    ensures r.expectedOrigin.Single? ==> r.expectedOrigin.origin != "" && NoEdgeWhitespace(r.expectedOrigin.origin)
    ensures r.expectedOrigin.Several? ==>
      forall k | 0 <= k < |r.expectedOrigin.origins| ::
        r.expectedOrigin.origins[k] != "" && NoEdgeWhitespace(r.expectedOrigin.origins[k])
  {
    var rpId := EnvOr(env, "NEXT_PUBLIC_RP_ID", DefaultRpId);
    var rpName := EnvOr(env, "NEXT_PUBLIC_RP_NAME", DefaultRpName);
    var originEnv := EnvOr(env, "NEXT_PUBLIC_EXPECTED_ORIGIN", DefaultOrigin);
    assert DefaultOrigin[0] == 'h' && DefaultOrigin[|DefaultOrigin| - 1] == '0';
    assert forall i | 0 <= i < |DefaultOrigin| :: DefaultOrigin[i] != ',';
    OneCleanOrigin(DefaultOrigin);
    RPConfig(rpId, ExpectedOriginOf(OriginParts(originEnv)), rpName)
  }

  /** Origins that are non-empty, without edge whitespace and without commas. */
  predicate CleanOrigins(origins: seq<string>)
  {
    forall k | 0 <= k < |origins| :: origins[k] != "" && NoEdgeWhitespace(origins[k]) && ',' !in origins[k]
  }

  /** Clean origins joined with commas are parsed back into the same list. */
  lemma JoinedOriginsParse(origins: seq<string>)
    requires |origins| >= 1
    requires CleanOrigins(origins)
    ensures Join(origins, ",") != "" && OriginParts(Join(origins, ",")) == origins
  {
    assert Join(origins, ",") != "" by {
      if |origins| > 1 {
        assert Join(origins, ",") == origins[0] + "," + Join(origins[1..], ",");
      }
    }
    assert Split(Join(origins, ","), ',') == origins by {
      SplitOfJoin(origins, ',');
    }
    assert TrimAll(origins) == origins by {
      forall k | 0 <= k < |origins| ensures Trim(origins[k]) == origins[k] {
        TrimNoop(origins[k]);
      }
    }
    NonEmptyKeepsAll(origins);
  }

  /**
   * A list of clean origins written with commas is read back as that list:
   * one origin as a string, several as the array.
   */
  lemma ListedOriginsRoundTrip(env: map<string, string>, origins: seq<string>)
    requires |origins| >= 1
    requires CleanOrigins(origins)
    requires "NEXT_PUBLIC_EXPECTED_ORIGIN" in env && env["NEXT_PUBLIC_EXPECTED_ORIGIN"] == Join(origins, ",")
    ensures GetRPConfig(env).expectedOrigin == if |origins| == 1 then Single(origins[0]) else Several(origins)
  {
    var value := Join(origins, ",");
    JoinedOriginsParse(origins);
    OriginsFromEnv(env, value);
    assert GetRPConfig(env).expectedOrigin == ExpectedOriginOf(origins);
  }

  /** A set origin variable is what the origins are parsed from. */
  lemma OriginsFromEnv(env: map<string, string>, value: string)
    requires value != "" && "NEXT_PUBLIC_EXPECTED_ORIGIN" in env && env["NEXT_PUBLIC_EXPECTED_ORIGIN"] == value
    ensures GetRPConfig(env).expectedOrigin == ExpectedOriginOf(OriginParts(value))
  {
  }

  /** With nothing configured, the defaults apply and the default origin is the only one. */
  lemma Defaults(env: map<string, string>)
    requires "NEXT_PUBLIC_RP_ID" !in env && "NEXT_PUBLIC_RP_NAME" !in env
    requires "NEXT_PUBLIC_EXPECTED_ORIGIN" !in env
    ensures GetRPConfig(env) == RPConfig(DefaultRpId, Single(DefaultOrigin), DefaultRpName)
  {
    assert DefaultOrigin[0] == 'h' && DefaultOrigin[|DefaultOrigin| - 1] == '0';
    assert forall i | 0 <= i < |DefaultOrigin| :: DefaultOrigin[i] != ',';
    OneCleanOrigin(DefaultOrigin);
  }

  /** A single clean origin is read as itself. */
  lemma OneCleanOrigin(s: string)
    requires s != "" && NoEdgeWhitespace(s) && ',' !in s
    ensures OriginParts(s) == [s]
  {
    SplitNoSeparator(s, ',');
    TrimNoop(s);
    assert TrimAll([s]) == [s];
    assert [s][..0] == [];
  }

  /** An origin list of separators and blanks only gives no origin at all. */
  lemma BlankListGivesUndefined(env: map<string, string>, value: string)
    requires "NEXT_PUBLIC_EXPECTED_ORIGIN" in env && env["NEXT_PUBLIC_EXPECTED_ORIGIN"] == value && value != ""
    requires forall i | 0 <= i < |value| :: value[i] == ',' || IsWhitespace(value[i])
    ensures GetRPConfig(env).expectedOrigin == Undefined
  {
    var pieces := Split(value, ',');
    forall k | 0 <= k < |pieces| ensures Trim(pieces[k]) == "" {
      PieceOfBlankIsBlank(value, k);
      TrimEmptyIffBlank(pieces[k]);
    }
    if OriginParts(value) != [] {
      OriginPartsMembers(value, OriginParts(value)[0]);
    }
  }

  /** The pieces of a text of separators and blanks are blank. */
  lemma {:induction false} PieceOfBlankIsBlank(value: string, k: nat)
    requires forall i | 0 <= i < |value| :: value[i] == ',' || IsWhitespace(value[i])
    requires k < |Split(value, ',')|
    ensures forall i | 0 <= i < |Split(value, ',')[k]| :: IsWhitespace(Split(value, ',')[k][i])
    decreases |value|
  {
    if |value| > 0 {
      var rest := Split(value[1..], ',');
      if value[0] == ',' {
        if k > 0 {
          PieceOfBlankIsBlank(value[1..], k - 1);
        }
      } else if k == 0 {
        PieceOfBlankIsBlank(value[1..], 0);
      } else {
        PieceOfBlankIsBlank(value[1..], k);
      }
    }
  }

  /** The registration option defaults. */
  datatype RegistrationOptions = RegistrationOptions(
    timeout: nat,
    attestationType: string,
    residentKey: string,
    userVerification: string,
    authenticatorAttachment: string)

  /** The authentication option defaults. */
  datatype AuthenticationOptions = AuthenticationOptions(timeout: nat, userVerification: string)

  const OptionsTimeout: nat := 60_000

  /** Registration asks for a discoverable platform credential with user verification and no attestation. */
  function DefaultRegistrationOptions(): (o: RegistrationOptions)
    ensures o.timeout == OptionsTimeout && o.userVerification == "required"
    ensures o.residentKey == "required" && o.authenticatorAttachment == "platform" && o.attestationType == "none"
  {
    RegistrationOptions(OptionsTimeout, "none", "required", "required", "platform")
  }

  /** Authentication asks for user verification within the same timeout. */
  function DefaultAuthenticationOptions(): (o: AuthenticationOptions)
    ensures o.timeout == DefaultRegistrationOptions().timeout
    ensures o.userVerification == DefaultRegistrationOptions().userVerification
  {
    AuthenticationOptions(OptionsTimeout, "required")
  }
}
