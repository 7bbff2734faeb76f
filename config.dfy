/** The backend's settings (`config.py`): the CORS origin parser, the computed fields derived
    from the Azure AD, Redis and fastMCP settings, and the validators that fill in the e-mail
    sender name and refuse the placeholder secret "changethis" outside local development. */
module Config {
  import opened Values
  import opened Text
  import Authority

  /** What `BACKEND_CORS_ORIGINS` can hold before validation: text, a list of strings, or
      anything else. */
  datatype CorsSetting = CorsText(text: string) | CorsItems(items: seq<string>) | CorsOther

  /** `parse_cors`'s answer: a list, a string left for JSON parsing, or a `ValueError`. */
  datatype CorsParsed = Origins(origins: seq<string>) | Unparsed(text: string) | CorsValueError

  /** The pieces of a comma-separated origin list, each stripped of surrounding whitespace. */
  function StrippedPieces(s: string): (r: seq<string>)
    ensures |r| == |Split(s, ',')|
    ensures forall i :: 0 <= i < |r| ==> r[i] == Strip(Split(s, ',')[i])
  {
    var parts := Split(s, ',');
    seq(|parts|, i requires 0 <= i < |parts| => Strip(parts[i]))
  }

  /** `parse_cors`: text that does not start with "[" is split on commas and each piece
      stripped; a list and a "["-prefixed text are passed through unchanged; anything else is a
      `ValueError`. */
  function ParseCors(v: CorsSetting): (r: CorsParsed)
    ensures r.CorsValueError? <==> v.CorsOther?
    ensures v.CorsItems? ==> r == Origins(v.items)
    ensures v.CorsText? && StartsWith(v.text, "[") ==> r == Unparsed(v.text)
    ensures v.CorsText? && !StartsWith(v.text, "[") ==> r == Origins(StrippedPieces(v.text))
  {
    match v
    case CorsText(s) => if !StartsWith(s, "[") then Origins(StrippedPieces(s)) else Unparsed(s)
    case CorsItems(xs) => Origins(xs)
    case CorsOther => CorsValueError
  }

  /** A comma-separated setting yields one origin per comma plus one; no origin contains a comma
      or starts or ends with whitespace; and the pieces before stripping join back into the
      setting. */
  lemma ParseCorsSplitsOnCommas(s: string)
    requires !StartsWith(s, "[")
    ensures ParseCors(CorsText(s)).Origins?
    ensures var origins := ParseCors(CorsText(s)).origins;
      |origins| == Count(s, ',') + 1 &&
      (forall i :: 0 <= i < |origins| ==> ',' !in origins[i] && Strip(origins[i]) == origins[i]) &&
      Join(Split(s, ','), ',') == s
  {
    var origins := ParseCors(CorsText(s)).origins;
    SplitLength(s, ',');
    JoinSplit(s, ',');
    forall i | 0 <= i < |origins|
      ensures ',' !in origins[i] && Strip(origins[i]) == origins[i]
    {
      StripIdempotent(Split(s, ',')[i]);
    }
  }

  datatype Environment = Local | Staging | Production

  /** The verdict of `_check_default_secret` on one setting. */
  datatype SecretCheck = Accepted | Warned(message: string) | Rejected(message: string)

  /** The verdict of `_enforce_non_default_secrets`: the warnings issued, or the first error. */
  datatype SecretsVerdict = Valid(warnings: seq<string>) | Invalid(message: string)

  const Placeholder: string := "changethis"

  function PlaceholderMessage(varName: string): string {
    "The value of " + varName + " is \"changethis\", for security, please change it, at least for deployments."
  }

  /** `_check_default_secret`: only the placeholder is flagged, with a warning in local
      development and an error elsewhere. */
  function CheckDefaultSecret(environment: Environment, varName: string, value: Option<string>): (r: SecretCheck)
    ensures r.Accepted? <==> value != Some(Placeholder)
    ensures r.Warned? <==> value == Some(Placeholder) && environment == Local
    ensures !r.Accepted? ==> r.message == PlaceholderMessage(varName)
  {
    if value == Some(Placeholder) then
      if environment == Local then Warned(PlaceholderMessage(varName)) else Rejected(PlaceholderMessage(varName))
    else Accepted
  }

  /** Runs the checks of `checks` (name and value) in order: warnings are collected, and the
      first error ends the run. Outside local development nothing is ever warned. */
  function RunSecretChecks(environment: Environment, checks: seq<(string, string)>): (v: SecretsVerdict)
    ensures v.Valid? ==> |v.warnings| <= |checks|
    ensures v.Valid? && environment != Local ==> v.warnings == []
  {
    if checks == [] then Valid([])
    else
      match CheckDefaultSecret(environment, checks[0].0, Some(checks[0].1))
      case Rejected(m) => Invalid(m)
      case Warned(m) =>
        var rest := RunSecretChecks(environment, checks[1..]);
        if rest.Valid? then Valid([m] + rest.warnings) else rest
      case Accepted => RunSecretChecks(environment, checks[1..])
  }

  /** Index `i` holds the first placeholder of `checks`. */
  predicate FirstPlaceholderAt(checks: seq<(string, string)>, i: int) {
    0 <= i < |checks| && checks[i].1 == Placeholder && forall j :: 0 <= j < i ==> checks[j].1 != Placeholder
  }

  /** The run fails exactly outside local development when some value is the placeholder, and
      then with the message for the first such setting. */
  lemma {:induction false} SecretChecksVerdict(environment: Environment, checks: seq<(string, string)>)
    ensures RunSecretChecks(environment, checks).Invalid? <==>
      environment != Local && exists i :: 0 <= i < |checks| && checks[i].1 == Placeholder
    ensures RunSecretChecks(environment, checks).Invalid? ==>
      exists i :: FirstPlaceholderAt(checks, i) &&
                  RunSecretChecks(environment, checks).message == PlaceholderMessage(checks[i].0)
  {
    if checks != [] {
      var tail := checks[1..];
      SecretChecksVerdict(environment, tail);
      if checks[0].1 == Placeholder {
        assert FirstPlaceholderAt(checks, 0);
      } else {
        assert RunSecretChecks(environment, checks) == RunSecretChecks(environment, tail);
        if exists i :: 0 <= i < |checks| && checks[i].1 == Placeholder {
          var i :| 0 <= i < |checks| && checks[i].1 == Placeholder;
          assert tail[i - 1].1 == Placeholder;
        }
        if RunSecretChecks(environment, tail).Invalid? {
          var i :| FirstPlaceholderAt(tail, i) &&
                   RunSecretChecks(environment, tail).message == PlaceholderMessage(tail[i].0);
          assert FirstPlaceholderAt(checks, i + 1);
        }
      }
    }
  }

  /** Every warning of a passing run names a setting whose value is the placeholder. */
  lemma {:induction false} SecretWarningsNamed(environment: Environment, checks: seq<(string, string)>)
    ensures RunSecretChecks(environment, checks).Valid? ==>
      forall w :: w in RunSecretChecks(environment, checks).warnings ==>
        exists i :: 0 <= i < |checks| && checks[i].1 == Placeholder && w == PlaceholderMessage(checks[i].0)
  {
    if checks != [] {
      var tail := checks[1..];
      SecretWarningsNamed(environment, tail);
      var v := RunSecretChecks(environment, checks);
      if v.Valid? {
        forall w | w in v.warnings
          ensures exists i :: 0 <= i < |checks| && checks[i].1 == Placeholder && w == PlaceholderMessage(checks[i].0)
        {
          if checks[0].1 == Placeholder && w == PlaceholderMessage(checks[0].0) {
          } else {
            assert w in RunSecretChecks(environment, tail).warnings;
            var i :| 0 <= i < |tail| && tail[i].1 == Placeholder && w == PlaceholderMessage(tail[i].0);
            assert checks[i + 1] == tail[i];
          }
        }
      }
    }
  }

  /** The warning messages for the placeholder values of `checks`, in order. */
  function PlaceholderWarnings(checks: seq<(string, string)>): seq<string> {
    if checks == [] then []
    else (if checks[0].1 == Placeholder then [PlaceholderMessage(checks[0].0)] else [])
         + PlaceholderWarnings(checks[1..])
  }

  /** In local development the run passes and warns once for every placeholder value, in the
      order of the checks. */
  lemma {:induction false} LocalWarnsEachPlaceholder(checks: seq<(string, string)>)
    ensures RunSecretChecks(Local, checks) == Valid(PlaceholderWarnings(checks))
    ensures forall i :: 0 <= i < |checks| && checks[i].1 == Placeholder ==>
      PlaceholderMessage(checks[i].0) in RunSecretChecks(Local, checks).warnings
  {
    if checks != [] {
      LocalWarnsEachPlaceholder(checks[1..]);
    }
    PlaceholderWarned(checks);
  }

  /** Every placeholder value of `checks` has its message among the warnings. */
  lemma {:induction false} PlaceholderWarned(checks: seq<(string, string)>)
    ensures forall i :: 0 <= i < |checks| && checks[i].1 == Placeholder ==>
      PlaceholderMessage(checks[i].0) in PlaceholderWarnings(checks)
  {
    if checks != [] {
      var tail := checks[1..];
      PlaceholderWarned(tail);
      var head := if checks[0].1 == Placeholder then [PlaceholderMessage(checks[0].0)] else [];
      assert PlaceholderWarnings(checks) == head + PlaceholderWarnings(tail);
      forall i | 0 <= i < |checks| && checks[i].1 == Placeholder
        ensures PlaceholderMessage(checks[i].0) in PlaceholderWarnings(checks)
      {
        var m := PlaceholderMessage(checks[i].0);
        if i == 0 {
          assert head == [m];
        } else {
          assert checks[i] == tail[i - 1];
          assert m in PlaceholderWarnings(tail);
        }
        InConcat(m, head, PlaceholderWarnings(tail));
      }
    }
  }

  lemma InConcat<T>(x: T, a: seq<T>, b: seq<T>)
    requires x in a || x in b
    ensures x in a + b
  {
  }

  class Settings {
    var projectName: string
    var emailsFromName: Option<string>
    var environment: Environment
    var frontendHost: string
    /** The origins as text, standing for `str()` of each validated `AnyUrl`. */
    var backendCorsOrigins: seq<string>
    var secretKey: string
    var postgresPassword: string
    var firstSuperuserPassword: string
    var azureTenantId: Option<string>
    var azureClientId: Option<string>
    var azureClientSecret: Option<string>
    var redisHost: string
    var fastmcpEnabled: bool

    constructor (projectName: string, emailsFromName: Option<string>, environment: Environment,
                 frontendHost: string, backendCorsOrigins: seq<string>,
                 secretKey: string, postgresPassword: string, firstSuperuserPassword: string,
                 azureTenantId: Option<string>, azureClientId: Option<string>, azureClientSecret: Option<string>,
                 redisHost: string, fastmcpEnabled: bool)
      ensures this.projectName == projectName && this.emailsFromName == emailsFromName
      ensures this.environment == environment && this.frontendHost == frontendHost
      ensures this.backendCorsOrigins == backendCorsOrigins
      ensures this.secretKey == secretKey && this.postgresPassword == postgresPassword
      ensures this.firstSuperuserPassword == firstSuperuserPassword
      ensures this.azureTenantId == azureTenantId && this.azureClientId == azureClientId
      ensures this.azureClientSecret == azureClientSecret
      ensures this.redisHost == redisHost && this.fastmcpEnabled == fastmcpEnabled
    {
      this.projectName := projectName;
      this.emailsFromName := emailsFromName;
      this.environment := environment;
      this.frontendHost := frontendHost;
      this.backendCorsOrigins := backendCorsOrigins;
      this.secretKey := secretKey;
      this.postgresPassword := postgresPassword;
      this.firstSuperuserPassword := firstSuperuserPassword;
      this.azureTenantId := azureTenantId;
      this.azureClientId := azureClientId;
      this.azureClientSecret := azureClientSecret;
      this.redisHost := redisHost;
      this.fastmcpEnabled := fastmcpEnabled;
    }

    /** `_set_default_emails_from`: an absent or empty sender name becomes the project name;
        a set one is kept. Nothing else changes. */
    method SetDefaultEmailsFrom()
      modifies this
      ensures old(emailsFromName) == None || old(emailsFromName) == Some("") ==> emailsFromName == Some(projectName)
      ensures old(emailsFromName) != None && old(emailsFromName) != Some("") ==> emailsFromName == old(emailsFromName)
      ensures projectName == old(projectName) && environment == old(environment) &&
              frontendHost == old(frontendHost) && backendCorsOrigins == old(backendCorsOrigins) &&
              secretKey == old(secretKey) && postgresPassword == old(postgresPassword) &&
              firstSuperuserPassword == old(firstSuperuserPassword) && azureTenantId == old(azureTenantId) &&
              azureClientId == old(azureClientId) && azureClientSecret == old(azureClientSecret) &&
              redisHost == old(redisHost) && fastmcpEnabled == old(fastmcpEnabled)
    {
      if emailsFromName.None? || emailsFromName.value == "" {
        emailsFromName := Some(projectName);
      }
    }

    /** `all_cors_origins`: every configured origin with its trailing slashes removed, in order,
        then the frontend host. */
    function CorsOrigins(): (r: seq<string>)
      reads this
      ensures |r| == |backendCorsOrigins| + 1 && r[|backendCorsOrigins|] == frontendHost
      ensures forall i :: 0 <= i < |backendCorsOrigins| ==>
        var origin := backendCorsOrigins[i];
        |r[i]| <= |origin| && r[i] == origin[..|r[i]|] &&
        (r[i] == [] || r[i][|r[i]| - 1] != '/') &&
        (forall k :: |r[i]| <= k < |origin| ==> origin[k] == '/') &&
        (origin == [] || origin[|origin| - 1] != '/' ==> r[i] == origin)
    {
      var origins := backendCorsOrigins;
      seq(|origins|, i requires 0 <= i < |origins| => TrimEnd(origins[i], c => c == '/')) + [frontendHost]
    }

    /** `azure_enabled`: tenant, client id and secret are all set and non-empty. */
    function AzureEnabled(): (r: bool)
      reads this
      ensures r <==> AzureAuthority().Some? && NonEmpty(AzureAudience()) && NonEmpty(azureClientSecret)
      ensures r ==> AzureJwksUri().Some? && AzureIssuer().Some?
    {
      NonEmpty(azureTenantId) && NonEmpty(azureClientId) && NonEmpty(azureClientSecret)
    }

    /** `azure_authority`. */
    function AzureAuthority(): (r: Option<string>)
      reads this
      ensures r.Some? <==> NonEmpty(azureTenantId)
      ensures r.Some? ==> r.value == Authority.AuthorityUrl(azureTenantId.value)
    {
      if NonEmpty(azureTenantId) then Some(Authority.AuthorityUrl(azureTenantId.value)) else None
    }

    /** `azure_jwks_uri`. */
    function AzureJwksUri(): (r: Option<string>)
      reads this
      ensures r.Some? <==> NonEmpty(azureTenantId)
      ensures r.Some? ==> r.value == Authority.JwksUri(azureTenantId.value)
    {
      if NonEmpty(azureTenantId) then Some(Authority.JwksUri(azureTenantId.value)) else None
    }

    /** `azure_issuer`. */
    function AzureIssuer(): (r: Option<string>)
      reads this
      ensures r.Some? <==> NonEmpty(azureTenantId)
      ensures r.Some? ==> r.value == Authority.IssuerUrl(azureTenantId.value)
    {
      if NonEmpty(azureTenantId) then Some(Authority.IssuerUrl(azureTenantId.value)) else None
    }

    /** `azure_audience`: the client id as configured. */
    function AzureAudience(): Option<string>
      reads this
    {
      azureClientId
    }

    /** `redis_enabled`: the host setting is truthy. */
    function RedisEnabled(): (r: bool)
      reads this
      ensures r <==> Truthy(Str(redisHost))
    {
      redisHost != ""
    }

    /** `fastmcp_ready`: Azure AD and Redis are both configured and the flag is on. */
    function FastmcpReady(): (r: bool)
      reads this
      ensures r <==> NonEmpty(azureTenantId) && NonEmpty(azureClientId) && NonEmpty(azureClientSecret) &&
                     redisHost != "" && fastmcpEnabled
      ensures r ==> AzureAuthority().Some? && AzureJwksUri().Some? && AzureIssuer().Some?
    {
      AzureEnabled() && RedisEnabled() && fastmcpEnabled
    }

    /** The three secrets, in the order `_enforce_non_default_secrets` checks them. */
    function SecretChecks(): (checks: seq<(string, string)>)
      reads this
      ensures |checks| == 3
      ensures checks[0] == ("SECRET_KEY", secretKey) && checks[1] == ("POSTGRES_PASSWORD", postgresPassword)
      ensures checks[2] == ("FIRST_SUPERUSER_PASSWORD", firstSuperuserPassword)
    {
      [("SECRET_KEY", secretKey), ("POSTGRES_PASSWORD", postgresPassword),
       ("FIRST_SUPERUSER_PASSWORD", firstSuperuserPassword)]
    }

    /** `_enforce_non_default_secrets`: the three secrets, checked in this order. */
    function EnforceNonDefaultSecrets(): (v: SecretsVerdict)
      reads this
      ensures v.Invalid? <==>
        (environment != Local &&
         (secretKey == Placeholder || postgresPassword == Placeholder || firstSuperuserPassword == Placeholder))
      ensures v.Invalid? && secretKey == Placeholder ==> v.message == PlaceholderMessage("SECRET_KEY")
      ensures environment == Local ==> v == Valid(PlaceholderWarnings(SecretChecks()))
    {
      var checks := SecretChecks();
      SecretChecksVerdict(environment, checks);
      LocalWarnsEachPlaceholder(checks);
      RunSecretChecks(environment, checks)
    }
  }

  /** Python's truthiness of an optional string. */
  predicate NonEmpty(s: Option<string>) {
    s.Some? && s.value != ""
  }

  /** The three Azure URLs are present together, exactly when a tenant is configured, and each
      gives back that tenant. */
  lemma AzureUrlsAgree(s: Settings)
    ensures s.AzureAuthority().Some? <==> s.AzureJwksUri().Some?
    ensures s.AzureAuthority().Some? <==> s.AzureIssuer().Some?
    ensures s.AzureAuthority().Some? ==>
      s.AzureAuthority().value[|Authority.LoginHost|..] == s.azureTenantId.value
  {
  }

  /** A server ready for fastMCP has all its token-verification URLs. */
  lemma ReadyServerHasVerifierUrls(s: Settings)
    requires s.FastmcpReady()
    ensures s.AzureAuthority().Some? && s.AzureJwksUri().Some? && s.AzureIssuer().Some?
    ensures s.AzureAudience().Some? && s.AzureAudience().value != ""
  {
  }

  /** The audience setting is the bare client id, whereas the bearer-token verifier of
      `AuthContext` expects `api://` followed by the client id. */
  lemma AudienceSettingDiffersFromVerifier(s: Settings)
    requires s.azureClientId.Some?
    ensures s.AzureAudience() != Some(Authority.Audience(s.azureClientId.value))
  {
    assert |Authority.Audience(s.azureClientId.value)| > |s.azureClientId.value|;
  }

  /** Local development never fails on the placeholder; it warns once per placeholder secret. */
  lemma LocalOnlyWarns(s: Settings)
    requires s.environment == Local
    ensures s.EnforceNonDefaultSecrets().Valid?
    ensures s.secretKey == Placeholder ==> PlaceholderMessage("SECRET_KEY") in s.EnforceNonDefaultSecrets().warnings
    ensures s.postgresPassword == Placeholder ==>
      PlaceholderMessage("POSTGRES_PASSWORD") in s.EnforceNonDefaultSecrets().warnings
    ensures s.firstSuperuserPassword == Placeholder ==>
      PlaceholderMessage("FIRST_SUPERUSER_PASSWORD") in s.EnforceNonDefaultSecrets().warnings
  {
    var checks := s.SecretChecks();
    assert s.EnforceNonDefaultSecrets() == RunSecretChecks(Local, checks);
    LocalWarnsEachPlaceholder(checks);
  }
}
