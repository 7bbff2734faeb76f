/** The Microsoft identity platform as the two authorization flows see it: the URL templates of a
    tenant, and the MSAL confidential client, which runs the authorization-code grant of
    section 4.1 of RFC 6749 and the refresh of section 6. The client is a scripted oracle: its
    answers are fixed functions of the request, and it records every request it receives. */
module Authority {
  import opened Values

  const LoginHost: string := "https://login.microsoftonline.com/"

  /** The authority URL of a tenant. */
  function AuthorityUrl(tenantId: string): string {
    LoginHost + tenantId
  }

  /** The JWKS endpoint the bearer-token verifier fetches signing keys from. */
  function JwksUri(tenantId: string): string {
    LoginHost + tenantId + "/discovery/v2.0/keys"
  }

  /** The issuer the bearer-token verifier expects. */
  function IssuerUrl(tenantId: string): string {
    "https://sts.windows.net/" + tenantId + "/"
  }

  /** The audience of the API's access tokens. */
  function Audience(clientId: string): string {
    "api://" + clientId
  }

  /** The one scope both flows request. */
  function ScopeFor(clientId: string): seq<string> {
    [Audience(clientId) + "/access_as_user"]
  }

  /** The authority URL gives back the tenant it was built from. */
  lemma AuthorityUrlInjective(a: string, b: string)
    ensures AuthorityUrl(a) == AuthorityUrl(b) ==> a == b
  {
    assert AuthorityUrl(a)[|LoginHost|..] == a;
    assert AuthorityUrl(b)[|LoginHost|..] == b;
  }

  /** An authorization-code flow as MSAL hands it out: its `state` and the URL to send the
      browser to. The PKCE verifier and nonce MSAL also keeps are not modelled. */
  datatype Flow = Flow(state: string, authUri: string)

  /** What a token request gives back: MSAL's result dictionary, or an exception. */
  datatype Reply = Answered(result: Dict) | Unreachable

  /** The requests the client has received, in order. */
  datatype Request =
    | Initiate(scopes: seq<string>, redirectUri: string)
    | Redeem(flow: Flow, params: map<string, string>)
    | Refresh(refreshToken: string, scopes: seq<string>)

  class IdentityAuthority {
    /** The flow handed out by the n-th request. */
    const flowFor: nat -> Flow
    /** The answer to redeeming a flow with the callback's query parameters. */
    const redeemReply: (Flow, map<string, string>) -> Reply
    /** The answer to a refresh-token request. */
    const refreshReply: string -> Reply
    var requests: seq<Request>

    constructor (flowFor: nat -> Flow, redeemReply: (Flow, map<string, string>) -> Reply, refreshReply: string -> Reply)
      ensures this.flowFor == flowFor && this.redeemReply == redeemReply && this.refreshReply == refreshReply
      ensures requests == []
    {
      this.flowFor := flowFor;
      this.redeemReply := redeemReply;
      this.refreshReply := refreshReply;
      requests := [];
    }

    /** `initiate_auth_code_flow`. */
    method InitiateAuthCodeFlow(scopes: seq<string>, redirectUri: string) returns (flow: Flow)
      modifies this
      ensures flow == flowFor(|old(requests)|)
      ensures requests == old(requests) + [Initiate(scopes, redirectUri)]
    {
      flow := flowFor(|requests|);
      requests := requests + [Initiate(scopes, redirectUri)];
    }

    /** `acquire_token_by_auth_code_flow`. */
    method AcquireTokenByAuthCodeFlow(flow: Flow, params: map<string, string>) returns (r: Reply)
      modifies this
      ensures r == redeemReply(flow, params)
      ensures requests == old(requests) + [Redeem(flow, params)]
    {
      r := redeemReply(flow, params);
      requests := requests + [Redeem(flow, params)];
    }

    /** `acquire_token_by_refresh_token`. */
    method AcquireTokenByRefreshToken(refreshToken: string, scopes: seq<string>) returns (r: Reply)
      modifies this
      ensures r == refreshReply(refreshToken)
      ensures requests == old(requests) + [Refresh(refreshToken, scopes)]
    {
      r := refreshReply(refreshToken);
      requests := requests + [Refresh(refreshToken, scopes)];
    }
  }
}
