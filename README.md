# Azure AD sign-in and role-based tool authorization for a FastMCP server

This project models the security core of a FastAPI service that puts an MCP (Model Context
Protocol) tool server behind Azure AD sign-in. The service has two trees that do the same
job in different ways: the backend (`backend/app/core`) and an earlier example
(`example/fastMCP-azureAD/src/shared`). The model covers both:

- **Tool authorization middleware.** It reads the roles, `upn` and `oid` claims of each
  request's bearer token. It filters the tool listing by mapping each role to the tool tags
  it grants (`Task.All` grants everything), prunes hidden tools from the tool manager, and
  refuses `admin_` tools to users without `MCPServer.Admin`. The backend's
  `RoleBasedToolFilter` helpers are modelled too. Modules `Authorization` and
  `ExampleAuthorization` (the example keeps Python's list aliasing), over `McpTools`.
- **Credential stores.** Token records, one-time auth codes and sessions are kept under
  prefixed Redis keys, each with a TTL. Modules `TokenStore` and `ExampleTokenStore`, over a
  Redis server with an expiry clock (module `Redis`).
- **Authorization-code flow coordinator.** `/auth/login` starts an MSAL flow and keeps it
  under its `state`. `/auth/callback` redeems the flow, saves the token under the user's
  oid and issues a two-minute auth code. `/auth/exchange` trades that code once for the
  stored token. `/auth/refresh` renews a token. Modules `AzureAuth` and
  `ExampleAuthContext`. The identity platform (the authorization-code grant of section 4.1
  of RFC 6749 and the refresh of section 6) is a scripted oracle with a request log
  (module `Authority`).
- **String helpers.** From the settings: the CORS origin parser, the computed Azure AD,
  Redis and fastMCP fields, and the validators for the e-mail sender name and the
  "changethis" secret (module `Config`). From the production test script: the extraction
  of an auth code from whatever a user pastes (module `AuthCodeInput`). Python's `strip`,
  `split`, `rstrip` and `count` are in module `Text`.

Objects whose fields change become classes with `modifies` clauses: the Redis client, the
MSAL client, the two middlewares, the tool manager, the route closures (their `flow_store`),
and the settings object of the e-mail validator. Pure computations become functions and
lemmas. Loops in the source (the role and pruning loops, `get_user_permissions`,
`filter_by_sensitivity`, `get_user_sessions`) are methods proved against specification
functions.

Four behaviours of the code are easy to miss; the model follows the code:

- The auth-code exchange reads the code and deletes it with two separate Redis commands,
  not one atomic step. Single use is proved only for exchanges that run one after the other.
- A tool call is checked only for the `admin_` prefix. The tag filter of the listing is not
  applied again, so a tool hidden from a user can still be called by name
  (`Authorization.HiddenToolStillCallable`).
- The example listing does not remove duplicates. A tool granted by two roles is shown twice
  (`ExampleAuthorization.ReadWriteToolShownTwice`).
- In the backend, a request without a bearer token keeps the previous request's user context
  (`Authorization.StaleContextKeepsAdmin`).

## Model

| member | source | states |
|---|---|---|
| Redis.RedisClient.Lookup | backend/app/core/redis_token_store.py:119 | GET answers a value exactly while the key is live (its expiry lies after `now`), and then answers the stored value |
| Redis.RedisClient.LiveKeysWithPrefix | backend/app/core/redis_token_store.py:294-297 | a `prefix*` scan sees exactly the live keys that start with the prefix |
| Redis.RedisClient.Get | backend/app/core/redis_token_store.py:119 | on a reachable server GET answers the lookup; on an unreachable one it fails |
| Redis.RedisClient.SetEx | backend/app/core/redis_token_store.py:101 | SETEX with a positive TTL stores the value to expire `ttl` seconds from now; a TTL that is not positive, or an unreachable server, fails and changes nothing |
| Redis.RedisClient.Delete | backend/app/core/redis_token_store.py:149 | DEL removes the key and answers 1 exactly when the key was live |
| Redis.RedisClient.ScanPrefix | backend/app/core/redis_token_store.py:294-297 | the scan answers the live keys with the prefix, or fails on an unreachable server |
| Redis.RedisClient.Advance | backend/app/core/redis_token_store.py:90-92 | the clock moves on and no stored entry changes; expiry is decided by comparing with the clock |
| Authority.AuthorityUrlInjective | backend/app/core/azure_auth.py:41 | the authority URL determines the tenant it was built from |
| Authority.IdentityAuthority.InitiateAuthCodeFlow | backend/app/core/azure_auth.py:113-115 | a flow request answers the next scripted flow and is logged with its scopes and redirect URI |
| Authority.IdentityAuthority.AcquireTokenByAuthCodeFlow | backend/app/core/azure_auth.py:127-129 | redeeming a flow answers the scripted reply for that flow and query, and is logged |
| Authority.IdentityAuthority.AcquireTokenByRefreshToken | backend/app/core/azure_auth.py:84-87 | a refresh answers the scripted reply for that refresh token, and is logged with its scopes |
| McpTools.Names | backend/app/core/authorization_middleware.py:136 | the set of names is exactly the names of the listed tools |
| McpTools.RemovedNames | backend/app/core/authorization_middleware.py:136-146 | a name is pruned exactly when a listed tool has it and no kept tool has it |
| McpTools.ToolManager.RemoveTool | backend/app/core/authorization_middleware.py:146 | the tool manager stops serving that name and nothing else changes |
| Authorization.EffectiveMappings | backend/app/core/authorization_middleware.py:28-58 | an absent or empty role table falls back to the default table; a non-empty one is used as given |
| Authorization.AddMatchingMembership | backend/app/core/authorization_middleware.py:124-133 | one role's pass keeps what was collected and adds exactly the listed tools carrying one of the role's tags |
| Authorization.AddMatchingNoDuplicates | backend/app/core/authorization_middleware.py:131-133 | one role's pass never adds a tool that is already collected |
| Authorization.GrantedWithTaskAll | backend/app/core/authorization_middleware.py:118-122 | once `Task.All` is met, the role loop answers the listing as it came |
| Authorization.GrantedMembership | backend/app/core/authorization_middleware.py:118-133 | without `Task.All`, the role loop collects exactly the listed tools that a mapped role grants by tag |
| Authorization.GrantedNoDuplicates | backend/app/core/authorization_middleware.py:118-133 | without `Task.All`, the role loop collects each tool at most once |
| Authorization.TaskAllSeesEverything | backend/app/core/authorization_middleware.py:118-122 | `Task.All` anywhere among the roles shows the whole listing, in its order |
| Authorization.VisibleToolsMembership | backend/app/core/authorization_middleware.py:108-133 | without `Task.All`, a tool is shown if and only if it is listed and one of the user's mapped roles grants one of its tags; unmapped roles grant nothing |
| Authorization.VisibleToolsNoDuplicates | backend/app/core/authorization_middleware.py:131-133 | without `Task.All`, no tool is shown twice |
| Authorization.VisibleIffTagPermitted | backend/app/core/authorization_middleware.py:220-242 | the listing filter agrees with `get_user_permissions`: a listed tool is shown if and only if one of its tags is among the user's permissions |
| Authorization.CallDecisionFor | backend/app/core/authorization_middleware.py:158-194 | a call is refused if and only if the tool name starts with `admin_` and the admin role is missing; a call without a message is named "unknown" |
| Authorization.HiddenToolStillCallable | backend/app/core/authorization_middleware.py:174-189 | a delete tool hidden from a `Task.Read` user's listing is still forwarded when called |
| Authorization.ListedAdminToolRefused | backend/app/core/authorization_middleware.py:118-122 | `Task.All` lists an `admin_` tool that the call check then refuses |
| Authorization.MissingMessageForwarded | backend/app/core/authorization_middleware.py:165 | a call without a message goes through under the name "unknown" |
| Authorization.AuthorizationMiddleware.constructor | backend/app/core/authorization_middleware.py:28-58 | the middleware starts with no claims, no roles and no user, and keeps its effective role table |
| Authorization.AuthorizationMiddleware.OnRequest | backend/app/core/authorization_middleware.py:60-96 | a decoded token replaces the user context; an undecodable one clears it; no token leaves the previous context in place |
| Authorization.AuthorizationMiddleware.OnListTools | backend/app/core/authorization_middleware.py:98-156 | the answer is the role-filtered listing; with roles and a tool manager, exactly the listed names that are not shown are removed; without roles nothing is shown and nothing removed |
| Authorization.AuthorizationMiddleware.OnCallTool | backend/app/core/authorization_middleware.py:158-194 | the call decision is the one `CallDecisionFor` gives for the current roles |
| Authorization.AuthorizationMiddleware.GetUserPermissions | backend/app/core/authorization_middleware.py:220-242 | answers the user, oid, roles, and the union of the tags of every mapped role held |
| Authorization.AuthorizationMiddleware.ValidateTokenFreshness | backend/app/core/authorization_middleware.py:244-263 | True if and only if there is an oid and a reachable store, and the stored record is fresh and expires more than 300 seconds from now; afterwards the store holds what `load_token` leaves (an expired record deleted, nothing else changed), and without an oid it is untouched |
| Authorization.AuthorizationMiddleware.HasRole | backend/app/core/authorization_middleware.py:196-206 | True if and only if the role is among the current roles |
| Authorization.AuthorizationMiddleware.HasAnyRole | backend/app/core/authorization_middleware.py:208-218 | True if and only if one of the required roles is held; an empty list of required roles is never met |
| Authorization.HasAnyRoleDecomposes | backend/app/core/authorization_middleware.py:196-218 | `has_any_role` of one role is `has_role`, and of a concatenation is the disjunction |
| Authorization.StaleContextKeepsAdmin | backend/app/core/authorization_middleware.py:67-81 | an admin's context survives a later token-less request, whose admin call then goes through |
| Authorization.FilterBySensitivity | backend/app/core/authorization_middleware.py:273-303 | the answer is exactly the tools whose sensitivity level admits one of the user's roles, in order |
| Authorization.AdmittedToolsMembership | backend/app/core/authorization_middleware.py:288-303 | a tool is kept if and only if it is given and its level admits one of the roles |
| Authorization.AdmittedToolsConcat | backend/app/core/authorization_middleware.py:295-303 | the sensitivity filter keeps order: it distributes over concatenation |
| Authorization.AdminAloneMissesPublicTools | backend/app/core/authorization_middleware.py:288-296 | the admin role alone does not see an unclassified (public) tool |
| Authorization.UnknownLevelAdmitsNobody | backend/app/core/authorization_middleware.py:288-300 | a level outside public, internal, confidential and restricted admits no role |
| Authorization.WithoutAdminTools | backend/app/core/authorization_middleware.py:324 | keeps exactly the tools whose name does not start with `admin_` |
| Authorization.WithoutAdminToolsConcat | backend/app/core/authorization_middleware.py:324 | the `admin_` filter distributes over concatenation, so it keeps input order and repeats |
| Authorization.FilterByContext | backend/app/core/authorization_middleware.py:305-326 | from 9 to 17 o'clock every tool stays; at other hours exactly the non-`admin_` tools stay |
| Authorization.FilterByContextConcat | backend/app/core/authorization_middleware.py:305-326 | at every hour the context filter distributes over concatenation, so it keeps input order and repeats |
| ExampleAuthorization.Tagged | example/fastMCP-azureAD/src/shared/middleware/authorization_middleware.py:26-29 | keeps exactly the tools carrying the tag |
| ExampleAuthorization.TaggedConcat | example/fastMCP-azureAD/src/shared/middleware/authorization_middleware.py:26-29 | the tag filter distributes over concatenation, so it keeps input order and repeats |
| ExampleAuthorization.ListingWithoutTaskAll | example/fastMCP-azureAD/src/shared/middleware/authorization_middleware.py:24-31 | without `Task.All` the listing stays unaliased and unchanged, and the filtered list gains exactly the tools granted by "read" or "write" |
| ExampleAuthorization.ListingStaysAliased | example/fastMCP-azureAD/src/shared/middleware/authorization_middleware.py:29-31 | once aliased, filtered list and listing stay one list, which only grows |
| ExampleAuthorization.ListingWithTaskAll | example/fastMCP-azureAD/src/shared/middleware/authorization_middleware.py:24-31 | with `Task.All` the answer is the listing itself, which keeps its original tools as a prefix |
| ExampleAuthorization.ListingMembership | example/fastMCP-azureAD/src/shared/middleware/authorization_middleware.py:24-31 | without `Task.All` a tool is shown if and only if a held `Task.Read` or `Task.Write` grants its "read" or "write" tag |
| ExampleAuthorization.TaskAllAnswersGrownListing | example/fastMCP-azureAD/src/shared/middleware/authorization_middleware.py:29-31 | with `Task.All` the answer is the listing, grown by what later roles appended |
| ExampleAuthorization.ReadWriteToolShownTwice | example/fastMCP-azureAD/src/shared/middleware/authorization_middleware.py:25-28 | a tool tagged "read" and "write" is shown twice to a user with both roles |
| ExampleAuthorization.TaskAllThenReadRepeatsReadTools | example/fastMCP-azureAD/src/shared/middleware/authorization_middleware.py:27-31 | `Task.All` followed by `Task.Read` lists every read tool twice |
| ExampleAuthorization.EmptyRolesPruneEverything | example/fastMCP-azureAD/src/shared/middleware/authorization_middleware.py:33-40 | with an empty roles claim nothing is shown and every listed name is pruned |
| ExampleAuthorization.AuthorizationMiddleware.constructor | example/fastMCP-azureAD/src/shared/middleware/authorization_middleware.py:10-12 | before the first request there is no user context |
| ExampleAuthorization.AuthorizationMiddleware.OnRequest | example/fastMCP-azureAD/src/shared/middleware/authorization_middleware.py:14-20 | a decoded token sets the context; a missing or undecodable token raises and leaves the context as it was |
| ExampleAuthorization.AuthorizationMiddleware.OnListTools | example/fastMCP-azureAD/src/shared/middleware/authorization_middleware.py:22-43 | without roles it raises and changes nothing; otherwise it answers the loop's filtered list, which is the listing object itself exactly when `Task.All` was met, and prunes the names of the possibly grown listing that are not shown |
| ExampleAuthorization.AuthorizationMiddleware.OnCallTool | example/fastMCP-azureAD/src/shared/middleware/authorization_middleware.py:45-54 | every call is forwarded |
| ExampleAuthorization.AdminCallContrast | example/fastMCP-azureAD/src/shared/middleware/authorization_middleware.py:45-54 | the example forwards an `admin_` call that the backend refuses for the same roles |
| TokenStore.TokenKey | backend/app/core/redis_token_store.py:64-66 | the key is the prefix, then ":token:", then the oid, which ends the key |
| TokenStore.AuthCodeKey | backend/app/core/redis_token_store.py:68-70 | the key is the prefix, then ":authcode:", then the code, which ends the key |
| TokenStore.SessionKey | backend/app/core/redis_token_store.py:72-74 | the key is the prefix, then ":session:", then the session id, which ends the key |
| TokenStore.NamespacesDisjoint | backend/app/core/redis_token_store.py:64-74 | token, auth-code and session keys of one prefix never coincide |
| TokenStore.KeysInjective | backend/app/core/redis_token_store.py:64-74 | within one namespace, the key determines the oid, code or session id |
| TokenStore.SessionScanSeesOnlySessions | backend/app/core/redis_token_store.py:294-297 | the session scan pattern matches session keys and no token or auth-code key |
| TokenStore.TokenTtl | backend/app/core/redis_token_store.py:90-92 | the TTL is at least 60 seconds, and `expires_at - now` when that is larger; it is 3600 without `expires_at`, and the save fails when `expires_at` is not a number |
| TokenStore.StoredToken | backend/app/core/redis_token_store.py:94-99 | the stored record is the input plus `stored_at` (now) and `user_oid`; every other field is kept |
| TokenStore.FreshnessOf | backend/app/core/redis_token_store.py:121-131 | a record is fresh if and only if its numeric `expires_at` lies after now; a non-dict or non-numeric `expires_at` is unreadable |
| TokenStore.StoredTokenFreshness | backend/app/core/redis_token_store.py:76-131 | a saved record loads exactly while its own `expires_at` lies ahead; otherwise it is expired, not unreadable |
| TokenStore.AuthCodeOwner | backend/app/core/redis_token_store.py:193-195 | a code document answers its string `user_oid`, or nothing |
| TokenStore.SessionRecord | backend/app/core/redis_token_store.py:234-238 | the stored session is the input plus `created_at` (now) and `session_id` (the given id); every other field is kept |
| TokenStore.RedisTokenStore.constructor | backend/app/core/redis_token_store.py:28-62 | the store keeps its client and key prefix |
| TokenStore.RedisTokenStore.SaveToken | backend/app/core/redis_token_store.py:76-105 | True if and only if the server is reachable and the TTL can be computed; then exactly the token key holds the stored record for that TTL |
| TokenStore.RedisTokenStore.FreshRecord | backend/app/core/redis_token_store.py:121-127 | the record `load_token` answers is live and fresh, with `expires_at` after now |
| TokenStore.RedisTokenStore.EntriesAfterLoad | backend/app/core/redis_token_store.py:124-131 | a load changes the key space at most by dropping that user's token key |
| TokenStore.RedisTokenStore.LoadToken | backend/app/core/redis_token_store.py:107-135 | a fresh record is answered; an expired one is deleted and None answered; missing, unreadable and failed reads answer None and change nothing |
| TokenStore.RedisTokenStore.DeleteToken | backend/app/core/redis_token_store.py:137-152 | True if and only if a live record was removed; the key is gone on a reachable server |
| TokenStore.RedisTokenStore.SetAuthCode | backend/app/core/redis_token_store.py:154-177 | True if and only if reachable with a positive TTL; then the code key holds the oid, time and code for the TTL |
| TokenStore.RedisTokenStore.BoundOwner | backend/app/core/redis_token_store.py:179-199 | an owner is answered if and only if the server is reachable and a live code document carries a string `user_oid`, and then it is that oid |
| TokenStore.RedisTokenStore.GetAuthCode | backend/app/core/redis_token_store.py:179-199 | answers the oid of a live code document and removes nothing; failures and missing codes answer None |
| TokenStore.RedisTokenStore.DeleteAuthCode | backend/app/core/redis_token_store.py:201-216 | True if and only if a live code was removed; the key is gone on a reachable server |
| TokenStore.RedisTokenStore.SaveSession | backend/app/core/redis_token_store.py:218-243 | True if and only if reachable with a positive TTL; then the session key holds the session record |
| TokenStore.RedisTokenStore.LoadSession | backend/app/core/redis_token_store.py:245-264 | answers the live session document as stored, or None |
| TokenStore.RedisTokenStore.DeleteSession | backend/app/core/redis_token_store.py:266-281 | True if and only if a live session was removed |
| TokenStore.RedisTokenStore.OwnedSessionKeys | backend/app/core/redis_token_store.py:290-303 | a key is owned if and only if it is a live session key whose document names the oid as `user_oid` |
| TokenStore.RedisTokenStore.GetUserSessions | backend/app/core/redis_token_store.py:283-307 | answers exactly the `session_id`s of the live sessions owned by the oid, one entry per owned session; a failed scan or a non-dict session gives [] |
| TokenStore.AuthCodeRoundTrip | backend/app/core/redis_token_store.py:154-199 | a bound code answers its oid exactly while its TTL has not elapsed, and reading it again answers the same |
| TokenStore.DeletedAuthCodeIsGone | backend/app/core/redis_token_store.py:179-216 | after `delete_auth_code` the code answers None |
| TokenStore.TokenRoundTrip | backend/app/core/redis_token_store.py:76-135 | a saved token loads back, with `stored_at` and `user_oid`, exactly when its `expires_at` lies ahead |
| ExampleTokenStore.TokenKey | example/fastMCP-azureAD/src/shared/redis_token_store.py:11-12 | the key is the prefix, then ":", then the oid, which ends the key |
| ExampleTokenStore.AuthCodeKey | example/fastMCP-azureAD/src/shared/redis_token_store.py:14-15 | the key is "authcode:" then the code, whatever the store's prefix |
| ExampleTokenStore.DefaultPrefixKeepsNamespacesApart | example/fastMCP-azureAD/src/shared/redis_token_store.py:7-15 | with the default prefix "token", token keys and auth-code keys never meet |
| ExampleTokenStore.AuthcodePrefixCollides | example/fastMCP-azureAD/src/shared/redis_token_store.py:11-15 | with the prefix "authcode", user `x`'s token key is code `x`'s key |
| ExampleTokenStore.CollisionNeedsAuthcodePrefix | example/fastMCP-azureAD/src/shared/redis_token_store.py:11-15 | keys collide only when the prefix starts with "authcode" |
| ExampleTokenStore.Ttl | example/fastMCP-azureAD/src/shared/redis_token_store.py:17-20 | the TTL is `expires_at - now` with no minimum, 3600 without `expires_at` |
| ExampleTokenStore.RedisTokenStore.constructor | example/fastMCP-azureAD/src/shared/redis_token_store.py:7-9 | the store keeps its client and prefix, and its JSON encoder and decoder |
| ExampleTokenStore.RedisTokenStore.StoredText | example/fastMCP-azureAD/src/shared/redis_token_store.py:20-31 | Redis holds a bare string as it is and any other document as its JSON text |
| ExampleTokenStore.RedisTokenStore.ParsedText | example/fastMCP-azureAD/src/shared/redis_token_store.py:24 | empty text answers None; other text answers what `json.loads` makes of it, and raises exactly where `json.loads` refuses it |
| ExampleTokenStore.RedisTokenStore.Loaded | example/fastMCP-azureAD/src/shared/redis_token_store.py:22-24 | a missing key or an empty stored text answers None; otherwise the stored text (a bare string, or a document's JSON text) goes through `json.loads`, which raises exactly where it refuses the text |
| ExampleTokenStore.RedisTokenStore.SaveToken | example/fastMCP-azureAD/src/shared/redis_token_store.py:17-20 | completes if and only if reachable with a positive TTL, storing the record as given; otherwise raises and changes nothing |
| ExampleTokenStore.RedisTokenStore.LoadToken | example/fastMCP-azureAD/src/shared/redis_token_store.py:22-24 | answers the stored text as `json.loads` reads it, with no expiry check: None for a missing key or empty text, a raise for text that is not JSON or an unreachable server |
| ExampleTokenStore.RedisTokenStore.SetAuthCode | example/fastMCP-azureAD/src/shared/redis_token_store.py:26-27 | stores the bare oid under the code for the TTL, or raises and changes nothing |
| ExampleTokenStore.RedisTokenStore.BoundOwner | example/fastMCP-azureAD/src/shared/redis_token_store.py:29-31 | an owner is answered if and only if the code key is live and its stored text is not empty, and then it is that text, even when the entry is a JSON token document |
| ExampleTokenStore.RedisTokenStore.GetAuthCode | example/fastMCP-azureAD/src/shared/redis_token_store.py:29-31 | answers the non-empty stored text of the code key (the oid, or the JSON text of a colliding token), None otherwise, or raises when unreachable |
| ExampleTokenStore.RedisTokenStore.DeleteAuthCode | example/fastMCP-azureAD/src/shared/redis_token_store.py:33-34 | completes if and only if reachable, and then the code key is gone |
| ExampleTokenStore.AuthCodeRoundTrip | example/fastMCP-azureAD/src/shared/redis_token_store.py:26-31 | a bound code answers its oid exactly while the TTL has not elapsed |
| ExampleTokenStore.DeletedAuthCodeIsGone | example/fastMCP-azureAD/src/shared/redis_token_store.py:29-34 | after a completed delete the code answers None |
| ExampleTokenStore.TokenOverwritesAuthCode | example/fastMCP-azureAD/src/shared/redis_token_store.py:11-31 | with the prefix "authcode", saving user `x`'s token overwrites auth code `x`, which then answers the token's JSON text as its owner |
| ExampleTokenStore.TokenRoundTrip | example/fastMCP-azureAD/src/shared/redis_token_store.py:17-24 | right after a completed save the load parses the record's JSON text, and answers the record whenever `json.loads` reads back what `json.dumps` wrote |
| ExampleTokenStore.AuthCodeOverwritesToken | example/fastMCP-azureAD/src/shared/redis_token_store.py:11-27 | with the prefix "authcode", binding code `x` overwrites user `x`'s token, whose load then parses the oid as JSON and raises when that fails |
| AzureAuth.ExpiresIn | backend/app/core/azure_auth.py:70 | `expires_in` defaults to 3600, and is unusable when it is not a number |
| AzureAuth.GetTokenData | backend/app/core/azure_auth.py:57-72 | the token data has exactly the three copied fields (null when absent) and `expires_at = now + expires_in` |
| AzureAuth.GrantedTokenFreshness | backend/app/core/azure_auth.py:67-72 | a granted and saved token loads at a later time exactly while less than `expires_in` seconds have passed |
| AzureAuth.OidOf | backend/app/core/azure_auth.py:139 | the oid is the string `id_token_claims.oid`, when present |
| AzureAuth.CallbackGrant | backend/app/core/azure_auth.py:138-145 | the callback can build its grant if and only if there is an oid, an `access_token` and a usable `expires_in` |
| AzureAuth.AuthContext.constructor | backend/app/core/azure_auth.py:28-55 | scope, authority, JWKS URI, issuer and audience are the templates of the tenant and client id |
| AzureAuth.AuthContext.RefreshToken | backend/app/core/azure_auth.py:74-93 | new token data exactly when the authority answers without "error"; the request is logged with the scope |
| AzureAuth.AuthRoutes.constructor | backend/app/core/azure_auth.py:96-108 | the routes start with no pending flow |
| AzureAuth.AuthRoutes.Login | backend/app/core/azure_auth.py:110-117 | a new flow is kept under its own `state`, and its URI is answered |
| AzureAuth.AuthRoutes.Callback | backend/app/core/azure_auth.py:119-152 | an unknown state is refused before the authority is asked; errors leave the flow pending and the store untouched; success saves the token, binds the new code for 120 seconds and drops the flow |
| AzureAuth.AuthRoutes.Exchange | backend/app/core/azure_auth.py:319-332 | a missing or unbound code is refused with no change; otherwise the owner's fresh token (or null) is answered and the code deleted |
| AzureAuth.AuthRoutes.RefreshEndpoint | backend/app/core/azure_auth.py:334-348 | a missing refresh token is refused without asking the authority; a failed refresh changes nothing; otherwise the new data is saved under its oid and answered |
| AzureAuth.ReplayedStateRejected | backend/app/core/azure_auth.py:122-152 | after a successful callback, the same callback is refused as an invalid state |
| AzureAuth.AuthCodeSingleUse | backend/app/core/azure_auth.py:322-332 | after a successful exchange, the same code is refused |
| AzureAuth.LoginThenCallback | backend/app/core/azure_auth.py:110-129 | a callback carrying the login's state redeems exactly that flow |
| AzureAuth.HandedOffState | backend/app/core/azure_auth.py:141-149 | within two minutes of the callback's saves the code is bound to the oid, and the saved record is fresh exactly while the token's lifetime lasts |
| AzureAuth.Handoff | backend/app/core/azure_auth.py:119-332 | within two minutes of a successful callback, its code exchanges for the saved token record, present exactly while the token's lifetime lasts |
| ExampleAuthContext.CallbackTtlIsLifetime | example/fastMCP-azureAD/src/shared/auth_context.py:30-36 | the example store keeps a callback's token for exactly `expires_in` seconds |
| ExampleAuthContext.AuthRoutes.constructor | example/fastMCP-azureAD/src/shared/auth_context.py:39-41 | the routes start with no pending flow |
| ExampleAuthContext.AuthRoutes.Login | example/fastMCP-azureAD/src/shared/auth_context.py:43-49 | a new flow is kept under its own `state` |
| ExampleAuthContext.AuthRoutes.Callback | example/fastMCP-azureAD/src/shared/auth_context.py:51-86 | as in the backend, but a store failure or a lifetime that is not positive raises before any code is bound and leaves the flow pending |
| ExampleAuthContext.AuthRoutes.Exchange | example/fastMCP-azureAD/src/shared/auth_context.py:88-100 | a missing or unbound code is refused; otherwise the owner's token text is answered as `json.loads` reads it, with no expiry check, and the code deleted; text that is not JSON, or an unreachable store, raises |
| ExampleAuthContext.ReplayedStateRejected | example/fastMCP-azureAD/src/shared/auth_context.py:52-82 | a state is good for one successful callback |
| ExampleAuthContext.AuthCodeSingleUse | example/fastMCP-azureAD/src/shared/auth_context.py:88-100 | a code is good for one exchange |
| ExampleAuthContext.ExpiredGrantContrast | example/fastMCP-azureAD/src/shared/auth_context.py:68-82 | a grant with a non-positive lifetime fails the example callback, while the backend issues a code |
| Text.Strip | backend/scripts/test_mcp_production.py:36 | the result occurs in the input with only whitespace before and after it, and neither starts nor ends with whitespace |
| Text.StripIdempotent | backend/scripts/test_mcp_production.py:36 | stripping twice is stripping once |
| Text.JoinSplit | backend/app/core/config.py:20 | the comma pieces join back into the text |
| Text.SplitLength | backend/app/core/config.py:20 | splitting gives one more piece than there are separators |
| Config.ParseCors | backend/app/core/config.py:18-23 | non-"[" text is split on commas and stripped; lists and "["-text pass through; anything else is a `ValueError` |
| Config.ParseCorsSplitsOnCommas | backend/app/core/config.py:18-20 | one origin per comma plus one, none with a comma or surrounding whitespace, and the pieces join back into the setting |
| Config.CheckDefaultSecret | backend/app/core/config.py:164-173 | only "changethis" is flagged: a warning in local development, an error elsewhere, naming the variable |
| Config.RunSecretChecks | backend/app/core/config.py:164-183 | a passing run warns at most once per check, and never outside local development |
| Config.LocalWarnsEachPlaceholder | backend/app/core/config.py:164-183 | in local development the run passes and warns once for every placeholder value, in the order of the checks |
| Config.PlaceholderWarned | backend/app/core/config.py:164-183 | the message naming each placeholder setting is among the collected warnings |
| Config.SecretChecksVerdict | backend/app/core/config.py:164-183 | the run fails if and only if outside local development some value is the placeholder, and then with the message of the first one |
| Config.SecretWarningsNamed | backend/app/core/config.py:164-183 | every warning of a passing run names a setting whose value is the placeholder |
| Config.Settings.constructor | backend/app/core/config.py:26-162 | the settings hold the given values |
| Config.Settings.SetDefaultEmailsFrom | backend/app/core/config.py:80-84 | an absent or empty sender name becomes the project name; nothing else changes |
| Config.Settings.CorsOrigins | backend/app/core/config.py:44-49 | one origin per configured origin, in order, each losing exactly its trailing slashes and nothing else, then the frontend host last |
| Config.Settings.AzureEnabled | backend/app/core/config.py:103-109 | True if and only if a tenant, a client id and a client secret are all set; then the authority, JWKS and issuer URLs exist |
| Config.Settings.AzureAuthority | backend/app/core/config.py:111-117 | present if and only if a tenant is set, and then the authority URL of the tenant |
| Config.Settings.AzureJwksUri | backend/app/core/config.py:119-125 | present if and only if a tenant is set, and then the tenant's JWKS URL |
| Config.Settings.AzureIssuer | backend/app/core/config.py:127-133 | present if and only if a tenant is set, and then the tenant's issuer URL |
| Config.Settings.RedisEnabled | backend/app/core/config.py:148-152 | True if and only if the Redis host is a non-empty string |
| Config.Settings.FastmcpReady | backend/app/core/config.py:158-162 | True if and only if Azure AD and Redis are enabled and fastMCP is switched on; then all three Azure URLs exist |
| Config.Settings.SecretChecks | backend/app/core/config.py:177-181 | the three secrets are checked in the order `SECRET_KEY`, `POSTGRES_PASSWORD`, `FIRST_SUPERUSER_PASSWORD` |
| Config.Settings.EnforceNonDefaultSecrets | backend/app/core/config.py:175-183 | invalid if and only if outside local development one of the three secrets is the placeholder; `SECRET_KEY` is reported first; in local development it passes with one warning per placeholder secret, in order |
| Config.AzureUrlsAgree | backend/app/core/config.py:111-133 | the three Azure URLs are present together and give back the tenant |
| Config.ReadyServerHasVerifierUrls | backend/app/core/config.py:103-162 | a fastMCP-ready server has all token-verification URLs and a non-empty audience |
| Config.AudienceSettingDiffersFromVerifier | backend/app/core/config.py:135-139 | the audience setting is the bare client id, not the `api://` audience the verifier expects |
| Config.LocalOnlyWarns | backend/app/core/config.py:164-183 | local development never fails on the placeholder, and warns about each of `SECRET_KEY`, `POSTGRES_PASSWORD` and `FIRST_SUPERUSER_PASSWORD` that is the placeholder |
| AuthCodeInput.AbsentWithoutUnsafeChars | backend/scripts/test_mcp_production.py:41 | deleting tab, CR and LF adds no character that was not in the URL |
| AuthCodeInput.KeptWithoutUnsafeChars | backend/scripts/test_mcp_production.py:41 | a URL without tab, CR or LF is left as it is |
| AuthCodeInput.WithoutUnsafeCharsConcat | backend/scripts/test_mcp_production.py:41 | the deletion of tab, CR and LF works piece by piece over a concatenation |
| AuthCodeInput.CallbackUrlSanitised | backend/scripts/test_mcp_production.py:39-41 | the deletion leaves a callback URL's shape and its code intact, acting only on the base and the further parameters |
| AuthCodeInput.BeforeFragment | backend/scripts/test_mcp_production.py:41 | the part of the URL before its first '#', or the whole URL |
| AuthCodeInput.QueryOf | backend/scripts/test_mcp_production.py:41 | the query is a '#'-free piece of the URL, shorter than it |
| AuthCodeInput.QueryOfFirstMark | backend/scripts/test_mcp_production.py:41 | the query is exactly the text from after the first '?' (when no '#' precedes it) up to the next '#' or the end; it is empty when every '?' lies in the fragment |
| AuthCodeInput.PlusToSpace | backend/scripts/test_mcp_production.py:42 | '+' decodes to a space and nothing else changes |
| AuthCodeInput.FirstValueFromField | backend/scripts/test_mcp_production.py:42-43 | a found value is the non-empty value of a query field named `code` |
| AuthCodeInput.CodeParamShape | backend/scripts/test_mcp_production.py:41-44 | a `code` parameter is non-empty, shorter than the URL, and free of '+', '&' and '#' |
| AuthCodeInput.ExtractAuthCode | backend/scripts/test_mcp_production.py:27-73 | a code found is non-empty, no longer than the input, and free of '&', '#' and '+' |
| AuthCodeInput.ExtractFromStripped | backend/scripts/test_mcp_production.py:38-73 | on stripped text, a code found by any of the four methods is non-empty, no longer than the text, and free of '&', '#' and '+' |
| AuthCodeInput.KeywordEnd | backend/scripts/test_mcp_production.py:64-66 | a label keyword is found exactly when the text starts with `code`, `authcode`, `auth_code` or `auth-code` in any case of ASCII letters, and it ends after 4, 8 or 9 characters accordingly |
| AuthCodeInput.LabelEnd | backend/scripts/test_mcp_production.py:64-66 | a label is the keyword and then one '=' or ':' whenever one follows it, as the greedy `[=:]?` takes it |
| AuthCodeInput.RemoveLabel | backend/scripts/test_mcp_production.py:64-66 | without a label nothing changes; with one, what is dropped is the label and then only whitespace, and the rest does not start with whitespace |
| AuthCodeInput.RemoveTrailer | backend/scripts/test_mcp_production.py:67 | without trailing closing punctuation nothing changes; with it, what is dropped is whitespace and then the maximal run of closing punctuation that ends the text, and the rest does not end with whitespace |
| AuthCodeInput.Cleaned | backend/scripts/test_mcp_production.py:64-67 | cleaning answers a piece of the input, no longer than it |
| AuthCodeInput.CleanedKeepsStart | backend/scripts/test_mcp_production.py:64-67 | without a leading label, cleaning only drops an end of the text: what is left is a prefix |
| AuthCodeInput.CleanedKeepsEnd | backend/scripts/test_mcp_production.py:64-67 | without closing punctuation at the end, cleaning only drops a label: what is left is a suffix |
| AuthCodeInput.WhitespaceIgnored | backend/scripts/test_mcp_production.py:36 | surrounding whitespace never changes the answer |
| AuthCodeInput.AcceptedShapeAsIs | backend/scripts/test_mcp_production.py:52-60 | a UUID-shaped code, or 30 to 40 hex digits, is answered as it is |
| AuthCodeInput.NoQueryNoCode | backend/scripts/test_mcp_production.py:41-43 | text without '?' has no `code` parameter |
| AuthCodeInput.WithoutQueryOnlyCodeShapes | backend/scripts/test_mcp_production.py:36-73 | input with no query yields only a code of an accepted shape |
| AuthCodeInput.CleaningRound | backend/scripts/test_mcp_production.py:64-71 | text that is no URL and no code shape answers as its cleaned form does |
| AuthCodeInput.LabelledHexRecovered | backend/scripts/test_mcp_production.py:64-71 | a hex code after a `code=` label is recovered |
| AuthCodeInput.TrailingStopRemoved | backend/scripts/test_mcp_production.py:67-71 | a UUID-shaped code followed by a full stop is recovered |
| AuthCodeInput.CallbackUrlAnswersCode | backend/scripts/test_mcp_production.py:39-46 | a pasted callback URL whose query starts with `code=` answers that code, for a code free of tab, CR and LF |

## Left out

- The Redis connection, its settings and `ping`. `health_check` is only a ping and is not modelled. Connection failures are the `reachable` flag.
- `cleanup_expired_tokens`: it does nothing and answers 0, because Redis expires keys itself.
- JSON serialisation in the backend store. It keeps `Values.Value` documents directly, so a document that `json.dumps` cannot encode is not modelled, and a document loads back as it was written.
- The text of `json.dumps` and the parser of `json.loads` in the example store. They are the store's parameters `encode` and `decode`, and `decode` answers None where `json.loads` raises. A bare string is stored as its own text, and every other document as `encode` of it. Nothing is assumed about how the two relate: that a record loads back as written is stated only under the hypothesis that `decode` reads back what `encode` wrote (`ExampleTokenStore.TokenRoundTrip`).
- Floating-point time. `time.time()` is a whole-second clock `now`, and `int()` truncation of TTLs is exact on it.
- Concurrency. Two exchanges of one code that run at the same time can both succeed, because reading and deleting the code are separate commands; only sequential single use is proved.
- The HTML pages of the callback and the logging calls. The success page is reduced to the code it carries.
- The signature, issuer and audience checks of bearer tokens (`JWTVerifier`) and the decoding of JWTs. A request carries no token, an undecodable one, or its decoded claims.
- A `roles` claim that is not a list, and `oid` or `upn` values that are not strings. Python would iterate such values or put them into keys.
- The `NotFoundError` of `remove_tool` for a name that is already gone. Removal is set removal.
- Glob metacharacters in a key prefix. The session scan is modelled as a plain prefix match.
- In `extract_auth_code`: the `%`-decoding of `parse_qs` and its handling of ';'. Also left out are the `ValueError`s that `urlparse` raises on a malformed IPv6 host and on a non-ASCII host that changes under NFKC normalisation; the script catches both. `urlsplit` also strips leading C0 controls and spaces, which never reach the query and so are not modelled. `\s` is Python's full `isspace` set (`Text.IsSpace`). The case-insensitive label match (`MatchesIgnoringCase`) accepts the upper- and lower-case ASCII forms of each letter. The label letters (a, c, d, e, h, o, t, u) have no other case-insensitive partner in Python's `re`, so this is the whole match.
- Payload and query values are strings. A JSON body whose `auth_code` or `refresh_token` is not a string (a number, a list) is not modelled; the routes treat the value as the key text.
- The later JSON parse and `AnyUrl` validation of a "["-prefixed CORS setting. `parse_cors` passes that text through, and so does the model. The `EmailStr` check of the sender name and the loading of settings from the environment are left out as well.
- Config.Settings.CorsOrigins: `backendCorsOrigins` stands for the `str()` of the origins after `AnyUrl` has validated them. That validation and normalisation of a list or comma setting is not modelled: the '/' it appends to an empty path, the lower-casing of scheme and host, and the rejection of an empty piece such as a trailing comma leaves.
- `emails_enabled`, `SQLALCHEMY_DATABASE_URI` and the other settings outside the Azure AD, Redis, fastMCP, CORS and secret checks.
- `get_user_info`: it answers a fixed placeholder.
- The example `AuthContext`. It is the backend one without `refresh_token`, and `AzureAuth.AuthContext` stands for it.
- The example `on_call_tool`'s lookup of tool metadata. It only prints, and every call goes on.
- The wiring of the middlewares and routes into the servers (`manager.py`, the `main_*` modules).
- Config.Settings.AzureAudience: it carries no contract of its own. The setting is stated through `Config.ReadyServerHasVerifierUrls` and `Config.AudienceSettingDiffersFromVerifier`.
- AuthCodeInput.WithoutQueryOnlyCodeShapes: stated for input with no '?' at all. The wider claim, that any code not taken from a callback URL has an accepted shape, is not proved for input that has a query but is not a callback URL.
- AuthCodeInput.ExtractAuthCode: the contract bounds the code and its characters. The exact answer is stated only for the cases proved by the lemmas after it: plain code shapes, a `code=` label, a trailing full stop, and callback URLs whose query starts with `code=`.
- AuthCodeInput.ExtractFromStripped: the same bounds-only contract as `ExtractAuthCode`, on text already stripped. The exact answer is stated through the same lemmas.
