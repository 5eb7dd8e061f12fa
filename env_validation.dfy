/**
 * Start-up validation of the required environment variables: every variable
 * must be set to a non-empty value that its validator accepts, each failure
 * is collected as one error, and validation throws when any was collected.
 * `new URL(...)` is foreign code and comes in as the parameter `parses`.
 */
module EnvValidation {
  import opened Common
  import opened Strings

  /** The required variables, in the order the configuration object declares them. */
  datatype EnvVar =
    | SupabaseUrl
    | PublishableKey
    | ServiceRoleKey
    | SessionSecret
    | RpId
    | RpName
    | ExpectedOrigin

  const RequiredVars: seq<EnvVar> :=
    [SupabaseUrl, PublishableKey, ServiceRoleKey, SessionSecret, RpId, RpName, ExpectedOrigin]

  function VarName(v: EnvVar): string
  {
    match v
    case SupabaseUrl => "NEXT_PUBLIC_SUPABASE_URL"
    case PublishableKey => "NEXT_PUBLIC_SUPABASE_PUBLISHABLE_KEY"
    case ServiceRoleKey => "SUPABASE_SERVICE_ROLE_KEY"
    case SessionSecret => "APP_SESSION_SECRET"
    case RpId => "NEXT_PUBLIC_RP_ID"
    case RpName => "NEXT_PUBLIC_RP_NAME"
    case ExpectedOrigin => "NEXT_PUBLIC_EXPECTED_ORIGIN"
  }

  /** Each variable is required, and listed once. */
  lemma RequiredVarsListEachOnce()
    ensures forall i, j | 0 <= i < j < |RequiredVars| :: RequiredVars[i] != RequiredVars[j]
    ensures forall v: EnvVar :: v in RequiredVars
  {
    forall v: EnvVar ensures v in RequiredVars {
      match v
      case SupabaseUrl => assert RequiredVars[0] == v;
      case PublishableKey => assert RequiredVars[1] == v;
      case ServiceRoleKey => assert RequiredVars[2] == v;
      case SessionSecret => assert RequiredVars[3] == v;
      case RpId => assert RequiredVars[4] == v;
      case RpName => assert RequiredVars[5] == v;
      case ExpectedOrigin => assert RequiredVars[6] == v;
    }
  }

  /** The names tell the variables apart. */
  lemma VarNamesDistinct()
    ensures forall v, w: EnvVar | v != w :: VarName(v) != VarName(w)
  {
    forall v, w: EnvVar | v != w ensures VarName(v) != VarName(w) {
      // No two names have the same length.
      assert |VarName(v)| != |VarName(w)|;
    }
  }

  function Description(v: EnvVar): string
  {
    match v
    case SupabaseUrl => "Must be a valid Supabase URL"
    case PublishableKey => "Must be a valid Supabase publishable key (starts with 'eyJ' or 'sb_publishable_')"
    case ServiceRoleKey => "Must be a valid Supabase service role key (starts with 'eyJ' or 'sb_secret_')"
    case SessionSecret => "Must be at least 32 characters long for security"
    case RpId => "Must be a valid relying party ID (domain or localhost)"
    case RpName => "Must be a non-empty application name"
    case ExpectedOrigin => "Must be valid URL(s), comma-separated if multiple"
  }

  const MissingIssue: string := "Missing required environment variable"

  /** Every comma-separated piece of the value, trimmed, parses as a URL. */
  predicate AllOriginsParse(value: string, parses: string -> bool)
  {
    var origins := Split(value, ',');
    forall i | 0 <= i < |origins| :: parses(Trim(origins[i]))
  }

  /** The validator of each variable. */
  predicate Accepts(v: EnvVar, value: string, parses: string -> bool)
  {
    match v
    case SupabaseUrl => parses(value) && (Contains(value, "supabase.co") || Contains(value, "localhost"))
    case PublishableKey => |value| >= 32 && (StartsWith(value, "eyJ") || StartsWith(value, "sb_publishable_"))
    case ServiceRoleKey => |value| >= 32 && (StartsWith(value, "eyJ") || StartsWith(value, "sb_secret_"))
    case SessionSecret => |value| >= 32
    case RpId => |value| > 0 && !Contains(value, " ")
    case RpName => |value| > 0
    case ExpectedOrigin => AllOriginsParse(value, parses)
  }

  /** `process.env[name]` is truthy: set and not empty. */
  predicate IsSet(env: map<string, string>, name: string)
  {
    name in env && env[name] != ""
  }

  /** What is wrong with a variable: it is unset or empty, or its validator refused it. */
  datatype Issue = Missing | Invalid

  /** An entry of `errors`; its text is `VarName(variable)` and `IssueText`. */
  datatype EnvError = EnvError(variable: EnvVar, issue: Issue)

  function IssueText(e: EnvError): string
  {
    match e.issue
    case Missing => MissingIssue
    case Invalid => Description(e.variable)
  }

  /** The variables' values as the validation reads them: `None` when unset or empty. */
  function Values(env: map<string, string>): EnvVar -> Option<string>
  {
    (v: EnvVar) => if IsSet(env, VarName(v)) then Some(env[VarName(v)]) else None
  }

  /** The validators of the configuration object, with URL parsing supplied. */
  function Validators(parses: string -> bool): (string, EnvVar) -> bool
  {
    (value: string, v: EnvVar) => Accepts(v, value, parses)
  }

  /**
   * The error a variable contributes, if any: "missing" when it is unset or
   * empty (its validator is then not consulted), "invalid" when the validator
   * refuses the value.
   */
  function ErrorFor(values: EnvVar -> Option<string>, validator: (string, EnvVar) -> bool, v: EnvVar): Option<EnvError>
  {
    if values(v).None? then Some(EnvError(v, Missing))
    else if !validator(values(v).value, v) then Some(EnvError(v, Invalid))
    else None
  }

  /** An unset variable is reported missing whatever its validator says; a set one is reported invalid exactly when refused. */
  lemma ErrorForCases(values: EnvVar -> Option<string>, validator: (string, EnvVar) -> bool, v: EnvVar)
    ensures var e := ErrorFor(values, validator, v);
      && (e.Some? ==> e.value.variable == v)
      && (values(v).None? ==> e == Some(EnvError(v, Missing)))
      && (values(v).Some? ==> (e.None? <==> validator(values(v).value, v)))
      && (values(v).Some? && e.Some? ==> e.value.issue == Invalid)
  {
  }

  /** The errors collected over the given variables, in their order. */
  function Errors(values: EnvVar -> Option<string>, validator: (string, EnvVar) -> bool, vars: seq<EnvVar>): (errs: seq<EnvError>)
    ensures |errs| <= |vars|
  {
    if |vars| == 0 then []
    else
      var e := ErrorFor(values, validator, vars[|vars| - 1]);
      Errors(values, validator, vars[..|vars| - 1]) + (if e.Some? then [e.value] else [])
  }

  /** An error is the error of one of the variables. */
  lemma {:induction false} ErrorsMembers(values: EnvVar -> Option<string>, validator: (string, EnvVar) -> bool, vars: seq<EnvVar>, e: EnvError)
    ensures e in Errors(values, validator, vars) <==> exists v | v in vars :: ErrorFor(values, validator, v) == Some(e)
    decreases |vars|
  {
    if |vars| > 0 {
      var init := vars[..|vars| - 1];
      var last := vars[|vars| - 1];
      var tail := ErrorFor(values, validator, last);
      ErrorsMembers(values, validator, init, e);
      assert vars == init + [last];
      assert Errors(values, validator, vars) == Errors(values, validator, init) + (if tail.Some? then [tail.value] else []);
      if e in Errors(values, validator, vars) {
        if e in Errors(values, validator, init) {
          var v :| v in init && ErrorFor(values, validator, v) == Some(e);
          assert v in vars;
        } else {
          assert tail == Some(e);
        }
      }
      if exists v | v in vars :: ErrorFor(values, validator, v) == Some(e) {
        var v :| v in vars && ErrorFor(values, validator, v) == Some(e);
        if v != last {
          assert v in init;
        }
      }
    }
  }

  /** There are no errors exactly when every variable is set and accepted. */
  lemma {:induction false} NoErrorsIffAllValid(values: EnvVar -> Option<string>, validator: (string, EnvVar) -> bool, vars: seq<EnvVar>)
    ensures Errors(values, validator, vars) == []
      <==> forall v | v in vars :: values(v).Some? && validator(values(v).value, v)
    decreases |vars|
  {
    if |vars| > 0 {
      var init := vars[..|vars| - 1];
      NoErrorsIffAllValid(values, validator, init);
      assert vars == init + [vars[|vars| - 1]];
    }
  }

  /** With variables listed once each, no variable has two errors. */
  lemma {:induction false} OneErrorPerVariable(values: EnvVar -> Option<string>, validator: (string, EnvVar) -> bool, vars: seq<EnvVar>)
    requires forall i, j | 0 <= i < j < |vars| :: vars[i] != vars[j]
    ensures var errs := Errors(values, validator, vars);
      forall i, j | 0 <= i < j < |errs| :: errs[i].variable != errs[j].variable
    decreases |vars|
  {
    if |vars| > 0 {
      var init := vars[..|vars| - 1];
      var last := vars[|vars| - 1];
      OneErrorPerVariable(values, validator, init);
      var errs := Errors(values, validator, init);
      forall k | 0 <= k < |errs| ensures errs[k].variable != last {
        ErrorsMembers(values, validator, init, errs[k]);
        var v :| v in init && ErrorFor(values, validator, v) == Some(errs[k]);
        ErrorForCases(values, validator, v);
        assert v != last;
      }
    }
  }

  /** One line per error, as the thrown message lists them. */
  function ErrorLine(e: EnvError): string
  {
    "  • " + VarName(e.variable) + ": " + IssueText(e)
  }

  /** One line per variable, as the thrown message lists the requirements. */
  function RequirementLine(v: EnvVar): string
  {
    "  • " + VarName(v) + ": " + Description(v)
  }

  function ErrorLines(errs: seq<EnvError>): (lines: seq<string>)
    ensures |lines| == |errs|
  {
    if |errs| == 0 then [] else ErrorLines(errs[..|errs| - 1]) + [ErrorLine(errs[|errs| - 1])]
  }

  /** The message lists the errors in the order they were collected. */
  lemma {:induction false} ErrorLinesInOrder(errs: seq<EnvError>, i: nat)
    requires i < |errs|
    ensures ErrorLines(errs)[i] == ErrorLine(errs[i])
    decreases |errs|
  {
    if i < |errs| - 1 {
      ErrorLinesInOrder(errs[..|errs| - 1], i);
    }
  }

  function RequirementLines(vars: seq<EnvVar>): (lines: seq<string>)
    ensures |lines| == |vars|
  {
    if |vars| == 0 then [] else RequirementLines(vars[..|vars| - 1]) + [RequirementLine(vars[|vars| - 1])]
  }

  const MessageHeader: seq<string> := ["❌ Environment Variable Validation Failed:", ""]
  const MessageMiddle: seq<string> := ["", "\U{1F4CB} Required environment variables:"]
  const MessageFooter: seq<string> :=
    ["", "\U{1F4A1} Create a .env or .env.local file in your project root with the required variables.",
     "   See README.md for setup instructions."]

  /** The thrown message: a header, the errors, the required variables and a hint, one per line. */
  function ValidationMessage(errs: seq<EnvError>): string
  {
    Join(MessageHeader + ErrorLines(errs) + MessageMiddle + RequirementLines(RequiredVars) + MessageFooter, "\n")
  }

  /**
   * `validateEnvironmentVariables`: the loop over the variables pushes each
   * error; the call throws when any was collected and returns otherwise.
   */
  method ValidateEnvironmentVariables(env: map<string, string>, parses: string -> bool)
    returns (outcome: Outcome<()>, errors: seq<EnvError>)
    ensures errors == Errors(Values(env), Validators(parses), RequiredVars)
    ensures outcome.Threw? <==> errors != []
    ensures outcome.Threw? ==> outcome.message == ValidationMessage(errors)
  {
    var values, validator := Values(env), Validators(parses);
    errors := [];
    for i := 0 to |RequiredVars|
      invariant errors == Errors(values, validator, RequiredVars[..i])
    {
      var v := RequiredVars[i];
      var value := values(v);
      assert RequiredVars[..i + 1][..i] == RequiredVars[..i];
      if value.None? {
        errors := errors + [EnvError(v, Missing)];
        continue;
      }
      if !validator(value.value, v) {
        errors := errors + [EnvError(v, Invalid)];
      }
    }
    assert RequiredVars[..|RequiredVars|] == RequiredVars;
    if |errors| > 0 {
      return Threw(ValidationMessage(errors)), errors;
    }
    outcome := Returned(());
  }

  /**
   * Validation succeeds exactly when every required variable is set and
   * accepted by its validator, and it never reports a variable twice.
   */
  lemma ValidationVerdict(env: map<string, string>, parses: string -> bool)
    ensures Errors(Values(env), Validators(parses), RequiredVars) == []
      <==> forall v: EnvVar :: IsSet(env, VarName(v)) && Accepts(v, env[VarName(v)], parses)
    ensures var errs := Errors(Values(env), Validators(parses), RequiredVars);
      forall i, j | 0 <= i < j < |errs| :: errs[i].variable != errs[j].variable
  {
    var values, validator := Values(env), Validators(parses);
    RequiredVarsListEachOnce();
    NoErrorsIffAllValid(values, validator, RequiredVars);
    OneErrorPerVariable(values, validator, RequiredVars);
    forall v: EnvVar
      ensures (values(v).Some? && validator(values(v).value, v))
        <==> (IsSet(env, VarName(v)) && Accepts(v, env[VarName(v)], parses))
    {
    }
  }

  /** `getEnvVar`: the value when set and non-empty, otherwise an error. */
  function GetEnvVar(env: map<string, string>, v: EnvVar): (r: Outcome<string>)
    ensures r.Returned? <==> IsSet(env, VarName(v))
    ensures r.Returned? ==> r.value == env[VarName(v)] && r.value != ""
  {
    var name := VarName(v);
    if !IsSet(env, name) then
      Threw("Environment variable " + name + " is not set. This should not happen after validation.")
    else Returned(env[name])
  }

  /** After validation has passed, reading any required variable succeeds with a value its validator accepts. */
  lemma ValidatedVarsAreReadable(env: map<string, string>, parses: string -> bool, v: EnvVar)
    requires Errors(Values(env), Validators(parses), RequiredVars) == []
    ensures GetEnvVar(env, v).Returned?
    ensures Accepts(v, GetEnvVar(env, v).value, parses)
  {
    ValidationVerdict(env, parses);
  }
}
