/** The example tree's login routes (`setup_auth_routes` in the example's `auth_context.py`).
    They follow the backend's callback and exchange step by step but catch nothing: every store
    failure raises as a server error, after whatever the earlier steps already did. The example
    `AuthContext` is the backend's without `refresh_token`, so `AzureAuth.AuthContext` stands for
    it. */
module ExampleAuthContext {
  import opened Values
  import opened Redis
  import opened Authority
  import ExampleTokenStore
  import AzureAuth

  /** The answers of the example's `/auth/exchange`: an error object, the loaded document (null
      when the key is absent or empty), or a server error. */
  datatype ExchangeOutcome = ExchangeError(message: string) | TokenReturned(document: Option<Value>) | ExchangeInternalError

  /** The TTL the example store derives from the callback's token data is `expires_in` itself. */
  lemma CallbackTtlIsLifetime(result: Dict, now: int)
    requires AzureAuth.GetTokenData(result, now).Some?
    ensures ExampleTokenStore.Ttl(AzureAuth.GetTokenData(result, now).value, now) ==
            Some(AzureAuth.ExpiresIn(result).value)
  {
  }

  class AuthRoutes {
    const context: AzureAuth.AuthContext
    const store: ExampleTokenStore.RedisTokenStore
    const redirectUri: string
    var flowStore: map<string, Flow>

    constructor (context: AzureAuth.AuthContext, store: ExampleTokenStore.RedisTokenStore, redirectUri: string)
      ensures this.context == context && this.store == store && this.redirectUri == redirectUri
      ensures flowStore == map[]
    {
      this.context := context;
      this.store := store;
      this.redirectUri := redirectUri;
      flowStore := map[];
    }

    /** `login`: starts a flow and keeps it under its own `state`. */
    method Login() returns (authUri: string)
      modifies this, context.msal
      ensures var flow := context.msal.flowFor(|old(context.msal.requests)|);
        flowStore == old(flowStore)[flow.state := flow] && authUri == flow.authUri
      ensures context.msal.requests == old(context.msal.requests) + [Initiate(context.scope, redirectUri)]
    {
      var flow := context.msal.InitiateAuthCodeFlow(context.scope, redirectUri);
      flowStore := flowStore[flow.state := flow];
      authUri := flow.authUri;
    }

    /** `callback`. The refusals are the backend's. After a good authority answer the token is
        saved for exactly `expires_in` seconds, so an unreachable store or a lifetime that is
        not positive raises before any auth code is bound and leaves the flow pending; otherwise
        the code is bound to the oid for two minutes and the flow is dropped. */
    method Callback(params: map<string, string>, freshCode: string) returns (o: AzureAuth.CallbackOutcome)
      modifies this, context.msal, store.client
      ensures store.client.now == old(store.client.now) && store.client.reachable == old(store.client.reachable)
      ensures !AzureAuth.KnownState(params, old(flowStore)) ==>
        o == AzureAuth.InvalidState && flowStore == old(flowStore) &&
        context.msal.requests == old(context.msal.requests) && store.client.entries == old(store.client.entries)
      ensures AzureAuth.KnownState(params, old(flowStore)) ==>
        var flow := old(flowStore)[params["state"]];
        var reply := context.msal.redeemReply(flow, params);
        var now := store.client.now;
        context.msal.requests == old(context.msal.requests) + [Redeem(flow, params)] &&
        if reply.Unreachable? then
          o == AzureAuth.InternalError && flowStore == old(flowStore) && store.client.entries == old(store.client.entries)
        else if "error" in reply.result then
          o == AzureAuth.AuthenticationFailed(AzureAuth.ErrorDescription(reply.result)) &&
          flowStore == old(flowStore) && store.client.entries == old(store.client.entries)
        else if AzureAuth.CallbackGrant(reply.result, now).None? ||
                !store.client.reachable || AzureAuth.ExpiresIn(reply.result).value <= 0 then
          o == AzureAuth.InternalError && flowStore == old(flowStore) && store.client.entries == old(store.client.entries)
        else
          var g := AzureAuth.CallbackGrant(reply.result, now).value;
          o == AzureAuth.CodeIssued(freshCode) && flowStore == old(flowStore) - {params["state"]} &&
          store.client.entries ==
            old(store.client.entries)
              [ExampleTokenStore.TokenKey(store.prefix, g.oid) :=
                 Entry(Dict(g.tokenData), now + AzureAuth.ExpiresIn(reply.result).value)]
              [ExampleTokenStore.AuthCodeKey(freshCode) := Entry(Str(g.oid), now + AzureAuth.AuthCodeTtl)]
    {
      if !("state" in params && params["state"] in flowStore) {
        return AzureAuth.InvalidState;
      }
      var state := params["state"];
      var flow := flowStore[state];
      var reply := context.msal.AcquireTokenByAuthCodeFlow(flow, params);
      if reply.Unreachable? {
        return AzureAuth.InternalError;
      }
      var result := reply.result;
      if "error" in result {
        return AzureAuth.AuthenticationFailed(AzureAuth.ErrorDescription(result));
      }
      var grant := AzureAuth.CallbackGrant(result, store.client.now);
      if grant.None? {
        return AzureAuth.InternalError;
      }
      var g := grant.value;
      CallbackTtlIsLifetime(result, store.client.now);
      var saved := store.SaveToken(g.oid, g.tokenData);
      if saved == Raised {
        return AzureAuth.InternalError;
      }
      var bound := store.SetAuthCode(freshCode, g.oid, AzureAuth.AuthCodeTtl);
      if bound == Raised {
        return AzureAuth.InternalError;
      }
      flowStore := flowStore - {state};
      o := AzureAuth.CodeIssued(freshCode);
    }

    /** `exchange_auth_code`: a missing code and a code bound to no oid are refused with no
        change; otherwise what `load_token` gives for that oid is answered, with no look at its
        expiry, and the code is deleted. An unreachable store, and bare text under the token
        key that `json.loads` refuses, raise. */
    method Exchange(payload: map<string, string>) returns (o: ExchangeOutcome)
      modifies store.client
      ensures store.client.now == old(store.client.now) && store.client.reachable == old(store.client.reachable)
      ensures NonEmptyField(payload, "auth_code").None? ==>
        o == ExchangeError("auth_code is required") && store.client.entries == old(store.client.entries)
      ensures NonEmptyField(payload, "auth_code").Some? && !store.client.reachable ==>
        o == ExchangeInternalError && store.client.entries == old(store.client.entries)
      ensures NonEmptyField(payload, "auth_code").Some? && store.client.reachable ==>
        var code := payload["auth_code"];
        var owner := old(store.BoundOwner(code));
        if owner.None? then
          o == ExchangeError("Invalid or expired auth_code") && store.client.entries == old(store.client.entries)
        else
          var loaded := old(store.Loaded(ExampleTokenStore.TokenKey(store.prefix, owner.value)));
          if loaded.RaisedError? then
            o == ExchangeInternalError && store.client.entries == old(store.client.entries)
          else
            o == TokenReturned(loaded.value) &&
            store.client.entries == old(store.client.entries) - {ExampleTokenStore.AuthCodeKey(code)}
    {
      var authCode := NonEmptyField(payload, "auth_code");
      if authCode.None? {
        return ExchangeError("auth_code is required");
      }
      var userOid := store.GetAuthCode(authCode.value);
      if userOid.RaisedError? {
        return ExchangeInternalError;
      }
      if userOid.value.None? {
        return ExchangeError("Invalid or expired auth_code");
      }
      var tokenData := store.LoadToken(userOid.value.value);
      if tokenData.RaisedError? {
        return ExchangeInternalError;
      }
      var deleted := store.DeleteAuthCode(authCode.value);
      if deleted == Raised {
        return ExchangeInternalError;
      }
      o := TokenReturned(tokenData.value);
    }
  }

  /** A `state` is good for one successful callback here too. */
  method ReplayedStateRejected(routes: AuthRoutes, params: map<string, string>, code1: string, code2: string)
    returns (first: AzureAuth.CallbackOutcome, second: AzureAuth.CallbackOutcome)
    modifies routes, routes.context.msal, routes.store.client
    ensures first.CodeIssued? ==> second == AzureAuth.InvalidState
  {
    first := routes.Callback(params, code1);
    second := routes.Callback(params, code2);
  }

  /** An auth code is good for one exchange when exchanges run one after the other. */
  method AuthCodeSingleUse(routes: AuthRoutes, payload: map<string, string>)
    returns (first: ExchangeOutcome, second: ExchangeOutcome)
    modifies routes.store.client
    ensures first.TokenReturned? ==> second == ExchangeError("Invalid or expired auth_code")
  {
    first := routes.Exchange(payload);
    second := routes.Exchange(payload);
  }

  /** A grant whose lifetime is not positive ends the example callback in a server error with
      the flow still pending, where the backend clamps the TTL to a minute and issues a code. */
  method ExpiredGrantContrast(example: AuthRoutes, backend: AzureAuth.AuthRoutes, params: map<string, string>, freshCode: string)
    returns (exampleOutcome: AzureAuth.CallbackOutcome, backendOutcome: AzureAuth.CallbackOutcome)
    requires AzureAuth.KnownState(params, example.flowStore) && AzureAuth.KnownState(params, backend.flowStore)
    requires example.context == backend.context
    requires var reply := example.context.msal.redeemReply(example.flowStore[params["state"]], params);
      reply.Answered? && "error" !in reply.result &&
      AzureAuth.CallbackGrant(reply.result, example.store.client.now).Some? &&
      AzureAuth.ExpiresIn(reply.result).value <= 0
    requires backend.flowStore[params["state"]] == example.flowStore[params["state"]]
    requires example.store.client != backend.store.client
    modifies example, backend, example.context.msal, example.store.client, backend.store.client
    ensures exampleOutcome == AzureAuth.InternalError && params["state"] in example.flowStore
    ensures backendOutcome == AzureAuth.CodeIssued(freshCode) && params["state"] !in backend.flowStore
  {
    exampleOutcome := example.Callback(params, freshCode);
    backendOutcome := backend.Callback(params, freshCode);
  }
}
