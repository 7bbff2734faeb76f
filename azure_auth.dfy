/** The backend's Azure AD integration: `AuthContext` (token data extraction and refresh) and the
    four routes of `setup_auth_routes`. Login keeps each pending flow in `flowStore` under its own
    `state`; the callback redeems it, saves the token under the user's oid and hands out a fresh
    two-minute auth code; the exchange trades that code once for the stored token. */
module AzureAuth {
  import opened Values
  import opened Redis
  import opened Authority
  import TokenStore

  /** `result.get("expires_in", 3600)`, or None when it is not a number (adding it to the clock
      then raises). */
  function ExpiresIn(result: Dict): (e: Option<int>)
    ensures "expires_in" !in result ==> e == Some(3600)
    ensures "expires_in" in result ==> (e.Some? <==> result["expires_in"].Int?)
    ensures "expires_in" in result && e.Some? ==> e.value == result["expires_in"].i
  {
    if "expires_in" !in result then Some(3600)
    else match result["expires_in"]
      case Int(n) => Some(n)
      case _ => None
  }

  /** `get_token_data`: the three token fields copied (Null where absent) and `expires_at` set
      to `now + expires_in`. */
  function GetTokenData(result: Dict, now: int): (r: Option<Dict>)
    ensures r.Some? <==> ExpiresIn(result).Some?
    ensures r.Some? ==>
      r.value.Keys == {"access_token", "refresh_token", "expires_at", "id_token_claims"} &&
      r.value["access_token"] == Get(result, "access_token") &&
      r.value["refresh_token"] == Get(result, "refresh_token") &&
      r.value["id_token_claims"] == Get(result, "id_token_claims") &&
      r.value["expires_at"] == Int(now + ExpiresIn(result).value)
  {
    match ExpiresIn(result)
    case None => None
    case Some(e) =>
      Some(map["access_token" := Get(result, "access_token"),
               "refresh_token" := Get(result, "refresh_token"),
               "expires_at" := Int(now + e),
               "id_token_claims" := Get(result, "id_token_claims")])
  }

  /** A token the authority grants at `now`, saved by the backend store, stays loadable at
      `later` exactly while less than its `expires_in` has passed; a default lifetime is an
      hour. */
  lemma GrantedTokenFreshness(result: Dict, userOid: string, now: nat, later: nat)
    requires GetTokenData(result, now).Some? && now <= later
    ensures var d := GetTokenData(result, now).value;
      TokenStore.FreshnessOf(Dict(TokenStore.StoredToken(d, userOid, now)), later).Fresh? <==>
      ExpiresIn(result).value > later - now
    ensures "expires_in" !in result ==> ExpiresIn(result).value == 3600
  {
    var d := GetTokenData(result, now).value;
    var stored := TokenStore.StoredToken(d, userOid, now);
    assert stored["expires_at"] == d["expires_at"];
  }

  /** `x["id_token_claims"]["oid"]` when it is a string; None where the lookup raises. */
  function OidOf(d: Dict): (r: Option<string>)
    ensures r.Some? <==> "id_token_claims" in d && d["id_token_claims"].Dict? &&
                         "oid" in d["id_token_claims"].fields && d["id_token_claims"].fields["oid"].Str?
    ensures r.Some? ==> d["id_token_claims"].fields["oid"] == Str(r.value)
  {
    if "id_token_claims" in d && d["id_token_claims"].Dict? && "oid" in d["id_token_claims"].fields
    then match d["id_token_claims"].fields["oid"]
      case Str(s) => Some(s)
      case _ => None
    else None
  }

  /** The user and token a successful callback saves. */
  datatype Grant = Grant(oid: string, tokenData: Dict)

  /** What the callback takes from an authority result without error: the oid of the id token
      and the token data; None where building them raises (no oid, no `access_token`, or a
      non-numeric `expires_in`). */
  function CallbackGrant(result: Dict, now: int): (g: Option<Grant>)
    ensures g.Some? <==> OidOf(result).Some? && "access_token" in result && ExpiresIn(result).Some?
    ensures g.Some? ==> g.value == Grant(OidOf(result).value, GetTokenData(result, now).value)
  {
    if OidOf(result).None? || "access_token" !in result then None
    else match GetTokenData(result, now)
      case None => None
      case Some(d) => Some(Grant(OidOf(result).value, d))
  }

  class AuthContext {
    const tenantId: string
    const clientId: string
    const clientSecret: string
    const scope: seq<string>
    const authority: string
    const jwksUri: string
    const issuer: string
    const audience: string
    const msal: IdentityAuthority

    constructor (tenantId: string, clientId: string, clientSecret: string, msal: IdentityAuthority)
      ensures this.tenantId == tenantId && this.clientId == clientId && this.clientSecret == clientSecret
      ensures scope == ScopeFor(clientId) && authority == AuthorityUrl(tenantId)
      ensures jwksUri == JwksUri(tenantId) && issuer == IssuerUrl(tenantId) && audience == Audience(clientId)
      ensures this.msal == msal
    {
      this.tenantId := tenantId;
      this.clientId := clientId;
      this.clientSecret := clientSecret;
      scope := ScopeFor(clientId);
      authority := AuthorityUrl(tenantId);
      jwksUri := JwksUri(tenantId);
      issuer := IssuerUrl(tenantId);
      audience := Audience(clientId);
      this.msal := msal;
    }

    /** `refresh_token`: the new token data when the authority answers without "error"; None
        when it raises, reports an error, or the data cannot be built. */
    method RefreshToken(refreshToken: string, now: int) returns (r: Option<Dict>)
      modifies msal
      ensures msal.requests == old(msal.requests) + [Refresh(refreshToken, scope)]
      ensures var reply := msal.refreshReply(refreshToken);
        r.Some? <==> reply.Answered? && "error" !in reply.result && ExpiresIn(reply.result).Some?
      ensures r.Some? ==> r == GetTokenData(msal.refreshReply(refreshToken).result, now)
    {
      var reply := msal.AcquireTokenByRefreshToken(refreshToken, scope);
      if reply.Unreachable? || "error" in reply.result {
        return None;
      }
      r := GetTokenData(reply.result, now);
    }
  }

  /** The answers of `/auth/callback`: 400 for an unknown state, 400 for an authority error,
      the success page carrying the auth code, or a 500 from an exception. */
  datatype CallbackOutcome =
    | InvalidState
    | AuthenticationFailed(description: Value)
    | CodeIssued(authCode: string)
    | InternalError

  /** The answers of `/auth/exchange`: an error object, or the stored token (null when it could
      not be loaded). */
  datatype ExchangeOutcome = ExchangeError(message: string) | TokenIssued(tokenData: Option<Dict>)

  /** The answers of `/auth/refresh`. */
  datatype RefreshOutcome = RefreshError(message: string) | Refreshed(tokenData: Dict) | RefreshInternalError

  /** Lifetime of a handed-out auth code, in seconds. */
  const AuthCodeTtl: int := 120

  /** The `error_description` of an authority error, "Unknown error" when absent. */
  function ErrorDescription(result: Dict): Value {
    if "error_description" in result then result["error_description"] else Str("Unknown error")
  }

  /** The callback's `state` names a pending flow. */
  predicate KnownState(params: map<string, string>, flows: map<string, Flow>) {
    "state" in params && params["state"] in flows
  }

  /** The key space after a successful callback saved `g` at time `now` and bound `authCode`
      to its oid. */
  function AfterCallback(entries: map<string, Entry>, prefix: string, g: Grant, authCode: string, now: int): map<string, Entry>
    requires TokenStore.TokenTtl(g.tokenData, now).Some?
  {
    entries[TokenStore.TokenKey(prefix, g.oid) :=
              Entry(Dict(TokenStore.StoredToken(g.tokenData, g.oid, now)), now + TokenStore.TokenTtl(g.tokenData, now).value)]
           [TokenStore.AuthCodeKey(prefix, authCode) :=
              Entry(Dict(TokenStore.AuthCodeRecord(authCode, g.oid, now)), now + AuthCodeTtl)]
  }

  class AuthRoutes {
    const context: AuthContext
    const store: TokenStore.RedisTokenStore
    const redirectUri: string
    var flowStore: map<string, Flow>

    constructor (context: AuthContext, store: TokenStore.RedisTokenStore, redirectUri: string)
      ensures this.context == context && this.store == store && this.redirectUri == redirectUri
      ensures flowStore == map[]
    {
      this.context := context;
      this.store := store;
      this.redirectUri := redirectUri;
      flowStore := map[];
    }

    /** `login`: starts a flow and keeps it under its own `state`. */
    method Login() returns (authUri: string)
      modifies this, context.msal
      ensures var flow := context.msal.flowFor(|old(context.msal.requests)|);
        flowStore == old(flowStore)[flow.state := flow] && authUri == flow.authUri
      ensures context.msal.requests == old(context.msal.requests) + [Initiate(context.scope, redirectUri)]
    {
      var flow := context.msal.InitiateAuthCodeFlow(context.scope, redirectUri);
      flowStore := flowStore[flow.state := flow];
      authUri := flow.authUri;
    }

    /** `callback`. An unknown state is refused before the authority is asked; an authority
        exception, an authority error and a result the token data cannot be built from all
        leave the flow pending and the store untouched; only success saves the token, binds
        `freshCode` (the new UUID) to the oid for two minutes and drops the flow. */
    method Callback(params: map<string, string>, freshCode: string) returns (o: CallbackOutcome)
      modifies this, context.msal, store.client
      ensures store.client.now == old(store.client.now) && store.client.reachable == old(store.client.reachable)
      ensures !KnownState(params, old(flowStore)) ==>
        o == InvalidState && flowStore == old(flowStore) &&
        context.msal.requests == old(context.msal.requests) && store.client.entries == old(store.client.entries)
      ensures KnownState(params, old(flowStore)) ==>
        var flow := old(flowStore)[params["state"]];
        var reply := context.msal.redeemReply(flow, params);
        var now := store.client.now;
        context.msal.requests == old(context.msal.requests) + [Redeem(flow, params)] &&
        if reply.Unreachable? then
          o == InternalError && flowStore == old(flowStore) && store.client.entries == old(store.client.entries)
        else if "error" in reply.result then
          o == AuthenticationFailed(ErrorDescription(reply.result)) &&
          flowStore == old(flowStore) && store.client.entries == old(store.client.entries)
        else if CallbackGrant(reply.result, now).None? then
          o == InternalError && flowStore == old(flowStore) && store.client.entries == old(store.client.entries)
        else
          var g := CallbackGrant(reply.result, now).value;
          o == CodeIssued(freshCode) && flowStore == old(flowStore) - {params["state"]} &&
          TokenStore.TokenTtl(g.tokenData, now).Some? &&
          store.client.entries ==
            if store.client.reachable then AfterCallback(old(store.client.entries), store.prefix, g, freshCode, now)
            else old(store.client.entries)
    {
      if !("state" in params && params["state"] in flowStore) {
        return InvalidState;
      }
      var state := params["state"];
      var flow := flowStore[state];
      var reply := context.msal.AcquireTokenByAuthCodeFlow(flow, params);
      if reply.Unreachable? {
        return InternalError;
      }
      var result := reply.result;
      if "error" in result {
        return AuthenticationFailed(ErrorDescription(result));
      }
      var grant := CallbackGrant(result, store.client.now);
      if grant.None? {
        return InternalError;
      }
      var g := grant.value;
      var _ := store.SaveToken(g.oid, g.tokenData);
      var _ := store.SetAuthCode(freshCode, g.oid, AuthCodeTtl);
      flowStore := flowStore - {state};
      o := CodeIssued(freshCode);
    }

    /** `exchange_auth_code`: a missing code and a code bound to no oid are refused with no
        change; otherwise the oid's token is loaded (null when it is not fresh) and the code is
        deleted. Reading and deleting are two separate commands. */
    method Exchange(payload: map<string, string>) returns (o: ExchangeOutcome)
      modifies store.client
      ensures store.client.now == old(store.client.now) && store.client.reachable == old(store.client.reachable)
      ensures NonEmptyField(payload, "auth_code").None? ==>
        o == ExchangeError("auth_code is required") && store.client.entries == old(store.client.entries)
      ensures NonEmptyField(payload, "auth_code").Some? ==>
        var code := payload["auth_code"];
        var owner := old(store.BoundOwner(code));
        if owner.None? || owner.value == "" then
          o == ExchangeError("Invalid or expired auth_code") && store.client.entries == old(store.client.entries)
        else
          o == TokenIssued(old(store.FreshRecord(owner.value))) &&
          store.client.entries == old(store.EntriesAfterLoad(owner.value)) - {TokenStore.AuthCodeKey(store.prefix, code)}
    {
      var authCode := NonEmptyField(payload, "auth_code");
      if authCode.None? {
        return ExchangeError("auth_code is required");
      }
      var userOid := store.GetAuthCode(authCode.value);
      if userOid.None? || userOid.value == "" {
        return ExchangeError("Invalid or expired auth_code");
      }
      var tokenData := store.LoadToken(userOid.value);
      var _ := store.DeleteAuthCode(authCode.value);
      o := TokenIssued(tokenData);
    }

    /** `refresh_token_endpoint`: a missing refresh token is refused without asking the
        authority; a failed refresh is refused with no change; otherwise the new token data is
        saved under the oid of its id token and answered. */
    method RefreshEndpoint(payload: map<string, string>) returns (o: RefreshOutcome)
      modifies context.msal, store.client
      ensures store.client.now == old(store.client.now) && store.client.reachable == old(store.client.reachable)
      ensures NonEmptyField(payload, "refresh_token").None? ==>
        o == RefreshError("refresh_token is required") &&
        context.msal.requests == old(context.msal.requests) && store.client.entries == old(store.client.entries)
      ensures NonEmptyField(payload, "refresh_token").Some? ==>
        var refreshToken := payload["refresh_token"];
        var reply := context.msal.refreshReply(refreshToken);
        var now := store.client.now;
        context.msal.requests == old(context.msal.requests) + [Refresh(refreshToken, context.scope)] &&
        if reply.Unreachable? || "error" in reply.result || GetTokenData(reply.result, now).None? then
          o == RefreshError("Failed to refresh token") && store.client.entries == old(store.client.entries)
        else
          var d := GetTokenData(reply.result, now).value;
          if OidOf(d).None? then
            o == RefreshInternalError && store.client.entries == old(store.client.entries)
          else
            o == Refreshed(d) && TokenStore.TokenTtl(d, now).Some? &&
            store.client.entries ==
              if store.client.reachable then
                old(store.client.entries)[TokenStore.TokenKey(store.prefix, OidOf(d).value) :=
                  Entry(Dict(TokenStore.StoredToken(d, OidOf(d).value, now)), now + TokenStore.TokenTtl(d, now).value)]
              else old(store.client.entries)
    {
      var refreshToken := NonEmptyField(payload, "refresh_token");
      if refreshToken.None? {
        return RefreshError("refresh_token is required");
      }
      var newTokenData := context.RefreshToken(refreshToken.value, store.client.now);
      if newTokenData.None? {
        return RefreshError("Failed to refresh token");
      }
      var oid := OidOf(newTokenData.value);
      if oid.None? {
        return RefreshInternalError;
      }
      var _ := store.SaveToken(oid.value, newTokenData.value);
      o := Refreshed(newTokenData.value);
    }
  }

  /** A `state` is good for one successful callback: replaying the same callback is refused. */
  method ReplayedStateRejected(routes: AuthRoutes, params: map<string, string>, code1: string, code2: string)
    returns (first: CallbackOutcome, second: CallbackOutcome)
    modifies routes, routes.context.msal, routes.store.client
    ensures first.CodeIssued? ==> second == InvalidState
  {
    first := routes.Callback(params, code1);
    second := routes.Callback(params, code2);
  }

  /** An auth code is good for one exchange when exchanges run one after the other. */
  method AuthCodeSingleUse(routes: AuthRoutes, payload: map<string, string>)
    returns (first: ExchangeOutcome, second: ExchangeOutcome)
    modifies routes.store.client
    ensures first.TokenIssued? ==> second == ExchangeError("Invalid or expired auth_code")
  {
    first := routes.Exchange(payload);
    second := routes.Exchange(payload);
  }

  /** The flow a login starts is found by the callback that carries its `state`: the callback
      goes to the authority with that very flow. */
  method LoginThenCallback(routes: AuthRoutes, params: map<string, string>, freshCode: string)
    returns (authUri: string, o: CallbackOutcome)
    modifies routes, routes.context.msal, routes.store.client
    ensures var flow := routes.context.msal.flowFor(|old(routes.context.msal.requests)|);
      "state" in params && params["state"] == flow.state ==>
      o != InvalidState &&
      routes.context.msal.requests ==
        old(routes.context.msal.requests) + [Initiate(routes.context.scope, routes.redirectUri), Redeem(flow, params)]
  {
    authUri := routes.Login();
    o := routes.Callback(params, freshCode);
  }

  /** What the store holds `seconds` later, within the auth code's two minutes, after a
      successful callback saved the grant of `result` at `now`: the code is bound to the oid,
      and the saved record is fresh exactly while the token's lifetime has not run out. */
  lemma HandedOffState(store: TokenStore.RedisTokenStore, result: Dict, entries: map<string, Entry>,
                       freshCode: string, now: nat, seconds: nat)
    requires CallbackGrant(result, now).Some? && CallbackGrant(result, now).value.oid != ""
    requires TokenStore.TokenTtl(CallbackGrant(result, now).value.tokenData, now).Some?
    requires seconds < AuthCodeTtl && store.client.reachable && store.client.now == now + seconds
    requires store.client.entries == AfterCallback(entries, store.prefix, CallbackGrant(result, now).value, freshCode, now)
    ensures var g := CallbackGrant(result, now).value;
      store.BoundOwner(freshCode) == Some(g.oid) &&
      store.FreshRecord(g.oid) ==
        if ExpiresIn(result).value > seconds then Some(TokenStore.StoredToken(g.tokenData, g.oid, now)) else None
  {
    var g := CallbackGrant(result, now).value;
    TokenStore.NamespacesDisjoint(store.prefix, g.oid, freshCode);
    GrantedTokenFreshness(result, g.oid, now, now + seconds);
  }

  /** The whole handoff: within two minutes of a successful callback on a reachable store, for
      a user with a non-empty oid, the auth code it issued exchanges for the saved token record, which is present exactly while
      the token's own lifetime has not run out. */
  method Handoff(routes: AuthRoutes, params: map<string, string>, freshCode: string, seconds: nat)
    returns (callback: CallbackOutcome, exchange: ExchangeOutcome)
    requires freshCode != ""
    modifies routes, routes.context.msal, routes.store.client
    ensures callback.CodeIssued? ==>
      KnownState(params, old(routes.flowStore)) &&
      var reply := routes.context.msal.redeemReply(old(routes.flowStore)[params["state"]], params);
      reply.Answered? && CallbackGrant(reply.result, old(routes.store.client.now)).Some?
    ensures callback.CodeIssued? && old(routes.store.client.reachable) && seconds < AuthCodeTtl ==>
      var flow := old(routes.flowStore)[params["state"]];
      var result := routes.context.msal.redeemReply(flow, params).result;
      var now := old(routes.store.client.now);
      var g := CallbackGrant(result, now).value;
      g.oid != "" ==>
      exchange == TokenIssued(
        if ExpiresIn(result).value > seconds then Some(TokenStore.StoredToken(g.tokenData, g.oid, now)) else None)
  {
    callback := routes.Callback(params, freshCode);
    routes.store.client.Advance(seconds);
    ghost var now := old(routes.store.client.now);
    if callback.CodeIssued? && routes.store.client.reachable && seconds < AuthCodeTtl {
      var flow := old(routes.flowStore)[params["state"]];
      var result := routes.context.msal.redeemReply(flow, params).result;
      var g := CallbackGrant(result, now).value;
      if g.oid != "" {
        HandedOffState(routes.store, result, old(routes.store.client.entries), freshCode, now, seconds);
      }
      exchange := routes.Exchange(map["auth_code" := freshCode]);
    } else {
      exchange := routes.Exchange(map["auth_code" := freshCode]);
    }
  }
}
