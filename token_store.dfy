/** The backend's credential store (`RedisTokenStore`): token records, one-time auth codes and
    sessions under prefixed Redis keys, each written with a TTL. Every Redis failure is caught and
    turned into False or None. */
module TokenStore {
  import opened Values
  import opened Redis

  const DefaultPrefix: string := "azuread"

  /** `_get_token_key`: the prefix, then ":token:", then the oid at the end of the key. */
  function TokenKey(prefix: string, userOid: string): (k: string)
    ensures |k| == |prefix| + 7 + |userOid| && k[..|prefix|] == prefix
    ensures k[|prefix|..|prefix| + 7] == ":token:" && k[|prefix| + 7..] == userOid
  {
    prefix + ":token:" + userOid
  }

  /** `_get_auth_code_key`: the prefix, then ":authcode:", then the code. */
  function AuthCodeKey(prefix: string, authCode: string): (k: string)
    ensures |k| == |prefix| + 10 + |authCode| && k[..|prefix|] == prefix
    ensures k[|prefix|..|prefix| + 10] == ":authcode:" && k[|prefix| + 10..] == authCode
  {
    prefix + ":authcode:" + authCode
  }

  /** `_get_session_key`: the prefix, then ":session:", then the session id. */
  function SessionKey(prefix: string, sessionId: string): (k: string)
    ensures |k| == |prefix| + 9 + |sessionId| && k[..|prefix|] == prefix
    ensures k[|prefix|..|prefix| + 9] == ":session:" && k[|prefix| + 9..] == sessionId
  {
    prefix + ":session:" + sessionId
  }

  /** The pattern `get_user_sessions` scans with, without its trailing `*`. */
  function SessionPattern(prefix: string): string {
    prefix + ":session:"
  }

  /** For one prefix the three namespaces never share a key: the character after `prefix:` is
      `t`, `a` or `s`. */
  lemma NamespacesDisjoint(prefix: string, a: string, b: string)
    ensures TokenKey(prefix, a) != AuthCodeKey(prefix, b)
    ensures TokenKey(prefix, a) != SessionKey(prefix, b)
    ensures AuthCodeKey(prefix, a) != SessionKey(prefix, b)
  {
    var n := |prefix| + 1;
    assert TokenKey(prefix, a)[n] == 't';
    assert AuthCodeKey(prefix, b)[n] == 'a' && AuthCodeKey(prefix, a)[n] == 'a';
    assert SessionKey(prefix, b)[n] == 's';
  }

  /** Within one namespace the key determines the identifier it was built from. */
  lemma KeysInjective(prefix: string, a: string, b: string)
    ensures TokenKey(prefix, a) == TokenKey(prefix, b) ==> a == b
    ensures AuthCodeKey(prefix, a) == AuthCodeKey(prefix, b) ==> a == b
    ensures SessionKey(prefix, a) == SessionKey(prefix, b) ==> a == b
  {
    var t := prefix + ":token:";
    var c := prefix + ":authcode:";
    var s := prefix + ":session:";
    assert TokenKey(prefix, a)[|t|..] == a && TokenKey(prefix, b)[|t|..] == b;
    assert AuthCodeKey(prefix, a)[|c|..] == a && AuthCodeKey(prefix, b)[|c|..] == b;
    assert SessionKey(prefix, a)[|s|..] == a && SessionKey(prefix, b)[|s|..] == b;
  }

  /** Session keys, and only they among the three kinds, match the session scan pattern. */
  lemma SessionScanSeesOnlySessions(prefix: string, a: string, b: string)
    ensures var p := SessionPattern(prefix);
      var k := SessionKey(prefix, a);
      |p| <= |k| && k[..|p|] == p
    ensures var p := SessionPattern(prefix);
      var k := TokenKey(prefix, a);
      !(|p| <= |k| && k[..|p|] == p)
    ensures var p := SessionPattern(prefix);
      var k := AuthCodeKey(prefix, b);
      !(|p| <= |k| && k[..|p|] == p)
  {
    var n := |prefix| + 1;
    var p := SessionPattern(prefix);
    assert SessionKey(prefix, a)[..|p|] == p;
    assert p[n] == 's' && TokenKey(prefix, a)[n] == 't' && AuthCodeKey(prefix, b)[n] == 'a';
  }

  function Max(a: int, b: int): int {
    if a >= b then a else b
  }

  /** The TTL `save_token` writes with: `max(60, expires_at - now)`, where a missing
      `expires_at` stands for `now + 3600`; None when `expires_at` is not a number (the
      subtraction raises and the save answers False). */
  function TokenTtl(tokenData: Dict, now: int): (ttl: Option<int>)
    ensures ttl.Some? <==> "expires_at" !in tokenData || tokenData["expires_at"].Int?
    ensures ttl.Some? ==> ttl.value >= 60
    ensures "expires_at" !in tokenData ==> ttl == Some(3600)
    ensures "expires_at" in tokenData && tokenData["expires_at"].Int? ==>
      ttl.value >= tokenData["expires_at"].i - now &&
      (ttl.value == 60 || ttl.value == tokenData["expires_at"].i - now)
  {
    if "expires_at" !in tokenData then Some(Max(60, now + 3600 - now))
    else match tokenData["expires_at"]
      case Int(e) => Some(Max(60, e - now))
      case _ => None
  }

  /** The record `save_token` stores: the input plus `stored_at` and `user_oid`. */
  function StoredToken(tokenData: Dict, userOid: string, now: int): (r: Dict)
    ensures r.Keys == tokenData.Keys + {"stored_at", "user_oid"}
    ensures r["stored_at"] == Int(now) && r["user_oid"] == Str(userOid)
    ensures forall k :: k in tokenData && k != "stored_at" && k != "user_oid" ==> r[k] == tokenData[k]
  {
    tokenData["stored_at" := Int(now)]["user_oid" := Str(userOid)]
  }

  /** How `load_token` judges a stored document. */
  datatype Freshness = Fresh(record: Dict) | Expired | Unreadable

  /** A document that is not a dict, or whose `expires_at` is not a number, makes `load_token`
      raise (and answer None without deleting); otherwise the record is fresh when its
      `expires_at` (0 when missing) lies after `now`, and expired otherwise. */
  function FreshnessOf(v: Value, now: nat): (f: Freshness)
    ensures f.Fresh? <==> v.Dict? && "expires_at" in v.fields && v.fields["expires_at"].Int? &&
                          v.fields["expires_at"].i > now
    ensures f.Fresh? ==> f.record == v.fields
    ensures f.Unreadable? <==> !v.Dict? || ("expires_at" in v.fields && !v.fields["expires_at"].Int?)
  {
    if !v.Dict? then Unreadable
    else
      var e := if "expires_at" in v.fields then v.fields["expires_at"] else Int(0);
      match e
      case Int(t) => if t > now then Fresh(v.fields) else Expired
      case _ => Unreadable
  }

  /** A record saved by `save_token` is loadable exactly while its own `expires_at` lies in the
      future. In particular a record without `expires_at` is kept for an hour by Redis but
      is expired for `load_token` from the start, and a record whose `expires_at` has passed is
      kept for the 60-second minimum but never loaded. */
  lemma StoredTokenFreshness(tokenData: Dict, userOid: string, now: nat)
    requires TokenTtl(tokenData, now).Some?
    ensures var f := FreshnessOf(Dict(StoredToken(tokenData, userOid, now)), now);
      f.Fresh? <==> "expires_at" in tokenData && tokenData["expires_at"].i > now
    ensures var f := FreshnessOf(Dict(StoredToken(tokenData, userOid, now)), now);
      f.Fresh? ==> f.record == StoredToken(tokenData, userOid, now)
    ensures var f := FreshnessOf(Dict(StoredToken(tokenData, userOid, now)), now);
      !f.Fresh? ==> f.Expired?
  {
    var r := StoredToken(tokenData, userOid, now);
    assert "expires_at" in r <==> "expires_at" in tokenData;
    if "expires_at" in tokenData {
      assert r["expires_at"] == tokenData["expires_at"];
    }
  }

  /** The document `set_auth_code` stores. */
  function AuthCodeRecord(authCode: string, userOid: string, now: int): Dict {
    map["user_oid" := Str(userOid), "created_at" := Int(now), "auth_code" := Str(authCode)]
  }

  /** What `get_auth_code` reads out of a stored document: its `user_oid`. A non-dict document
      makes the read raise, which answers None. */
  function AuthCodeOwner(v: Value): (r: Option<string>)
    ensures r.Some? <==> v.Dict? && "user_oid" in v.fields && v.fields["user_oid"].Str?
    ensures r.Some? ==> r.value == v.fields["user_oid"].s
  {
    if v.Dict? && "user_oid" in v.fields && v.fields["user_oid"].Str?
    then Some(v.fields["user_oid"].s) else None
  }

  /** The document `save_session` stores: the input plus `created_at` and `session_id`. */
  function SessionRecord(sessionData: Dict, sessionId: string, now: int): (r: Dict)
    ensures r.Keys == sessionData.Keys + {"created_at", "session_id"}
    ensures r["session_id"] == Str(sessionId) && r["created_at"] == Int(now)
    ensures forall k :: k in sessionData && k != "created_at" && k != "session_id" ==> r[k] == sessionData[k]
  {
    sessionData["created_at" := Int(now)]["session_id" := Str(sessionId)]
  }

  /** The stored session `v` belongs to `userOid`. */
  predicate OwnedBy(v: Value, userOid: string) {
    v.Dict? && Get(v.fields, "user_oid") == Str(userOid)
  }

  class RedisTokenStore {
    const client: RedisClient
    const prefix: string

    constructor (client: RedisClient, prefix: string)
      ensures this.client == client && this.prefix == prefix
    {
      this.client := client;
      this.prefix := prefix;
    }

    /** `save_token`: True exactly when Redis accepted the write. */
    method SaveToken(userOid: string, tokenData: Dict) returns (ok: bool)
      modifies client
      ensures client.now == old(client.now) && client.reachable == old(client.reachable)
      ensures ok <==> client.reachable && TokenTtl(tokenData, client.now).Some?
      ensures ok ==> client.entries == old(client.entries)[TokenKey(prefix, userOid) :=
        Entry(Dict(StoredToken(tokenData, userOid, client.now)),
              client.now + TokenTtl(tokenData, client.now).value)]
      ensures !ok ==> client.entries == old(client.entries)
    {
      var key := TokenKey(prefix, userOid);
      var ttl := TokenTtl(tokenData, client.now);
      if ttl.None? {
        return false;
      }
      var reply := client.SetEx(key, ttl.value, Dict(StoredToken(tokenData, userOid, client.now)));
      ok := reply.Ok?;
    }

    /** The record `load_token` would answer for `userOid` on a reachable server: the stored
        record while it is live and fresh. */
    function FreshRecord(userOid: string): (r: Option<Dict>)
      reads this, client
      ensures r.Some? ==> "expires_at" in r.value && r.value["expires_at"].Int? &&
                          r.value["expires_at"].i > client.now
      ensures r.Some? <==> client.Live(TokenKey(prefix, userOid)) &&
                           FreshnessOf(client.entries[TokenKey(prefix, userOid)].value, client.now).Fresh?
    {
      var key := TokenKey(prefix, userOid);
      if client.Live(key) then
        match FreshnessOf(client.entries[key].value, client.now)
        case Fresh(rec) => Some(rec)
        case _ => None
      else None
    }

    /** The key space after `load_token(userOid)`: an expired record is gone. */
    function EntriesAfterLoad(userOid: string): (e: map<string, Entry>)
      reads this, client
      ensures e == client.entries || e == client.entries - {TokenKey(prefix, userOid)}
    {
      var key := TokenKey(prefix, userOid);
      if client.reachable && client.Live(key) && FreshnessOf(client.entries[key].value, client.now).Expired?
      then client.entries - {key} else client.entries
    }

    /** `load_token`: the record while it is fresh; an expired record is deleted and None is
        answered; a failed read, a missing key and an unreadable record are all None. */
    method LoadToken(userOid: string) returns (r: Option<Dict>)
      modifies client
      ensures client.now == old(client.now) && client.reachable == old(client.reachable)
      ensures r == if client.reachable then old(FreshRecord(userOid)) else None
      ensures client.entries == old(EntriesAfterLoad(userOid))
      ensures var key := TokenKey(prefix, userOid);
        if client.reachable && old(client.Live(key)) then
          match FreshnessOf(old(client.entries)[key].value, client.now)
          case Fresh(rec) => r == Some(rec) && client.entries == old(client.entries)
          case Expired => r == None && client.entries == old(client.entries) - {key}
          case Unreadable => r == None && client.entries == old(client.entries)
        else r == None && client.entries == old(client.entries)
      ensures r.Some? ==> "expires_at" in r.value && r.value["expires_at"].Int? &&
                          r.value["expires_at"].i > client.now
    {
      var key := TokenKey(prefix, userOid);
      var got := client.Get(key);
      if got.Failed? || got.value.None? {
        return None;
      }
      match FreshnessOf(got.value.value, client.now)
      case Fresh(rec) =>
        r := Some(rec);
      case Expired =>
        var _ := client.Delete(key);
        r := None;
      case Unreadable =>
        r := None;
    }

    /** `delete_token`: True exactly when a live record was removed. */
    method DeleteToken(userOid: string) returns (ok: bool)
      modifies client
      ensures client.now == old(client.now) && client.reachable == old(client.reachable)
      ensures ok <==> client.reachable && old(client.Live(TokenKey(prefix, userOid)))
      ensures client.reachable ==> client.entries == old(client.entries) - {TokenKey(prefix, userOid)}
      ensures !client.reachable ==> client.entries == old(client.entries)
    {
      var reply := client.Delete(TokenKey(prefix, userOid));
      ok := reply.Ok? && reply.value > 0;
    }

    /** `set_auth_code`: binds `authCode` to `userOid` for `ttl` seconds (120 by default). */
    method SetAuthCode(authCode: string, userOid: string, ttl: int) returns (ok: bool)
      modifies client
      ensures client.now == old(client.now) && client.reachable == old(client.reachable)
      ensures ok <==> client.reachable && ttl > 0
      ensures ok ==> client.entries == old(client.entries)[AuthCodeKey(prefix, authCode) :=
        Entry(Dict(AuthCodeRecord(authCode, userOid, client.now)), client.now + ttl)]
      ensures !ok ==> client.entries == old(client.entries)
    {
      var reply := client.SetEx(AuthCodeKey(prefix, authCode), ttl,
                                Dict(AuthCodeRecord(authCode, userOid, client.now)));
      ok := reply.Ok?;
    }

    /** The oid `get_auth_code` answers for `authCode`. */
    function BoundOwner(authCode: string): (r: Option<string>)
      reads this, client
      ensures r.Some? <==> client.reachable && client.Live(AuthCodeKey(prefix, authCode)) &&
                           AuthCodeOwner(client.entries[AuthCodeKey(prefix, authCode)].value).Some?
      ensures r.Some? ==> r == AuthCodeOwner(client.entries[AuthCodeKey(prefix, authCode)].value)
    {
      var key := AuthCodeKey(prefix, authCode);
      if client.reachable && client.Live(key) then AuthCodeOwner(client.entries[key].value) else None
    }

    /** `get_auth_code`: the oid bound to the code, without removing it. A failed read and a
        missing or expired code are both None. */
    method GetAuthCode(authCode: string) returns (r: Option<string>)
      ensures r == BoundOwner(authCode)
    {
      var got := client.Get(AuthCodeKey(prefix, authCode));
      if got.Failed? || got.value.None? {
        return None;
      }
      r := AuthCodeOwner(got.value.value);
    }

    /** `delete_auth_code`: True exactly when a live code was removed. */
    method DeleteAuthCode(authCode: string) returns (ok: bool)
      modifies client
      ensures client.now == old(client.now) && client.reachable == old(client.reachable)
      ensures ok <==> client.reachable && old(client.Live(AuthCodeKey(prefix, authCode)))
      ensures client.reachable ==> client.entries == old(client.entries) - {AuthCodeKey(prefix, authCode)}
      ensures !client.reachable ==> client.entries == old(client.entries)
    {
      var reply := client.Delete(AuthCodeKey(prefix, authCode));
      ok := reply.Ok? && reply.value > 0;
    }

    /** `save_session`: stores the session document for `ttl` seconds (3600 by default). */
    method SaveSession(sessionId: string, sessionData: Dict, ttl: int) returns (ok: bool)
      modifies client
      ensures client.now == old(client.now) && client.reachable == old(client.reachable)
      ensures ok <==> client.reachable && ttl > 0
      ensures ok ==> client.entries == old(client.entries)[SessionKey(prefix, sessionId) :=
        Entry(Dict(SessionRecord(sessionData, sessionId, client.now)), client.now + ttl)]
      ensures !ok ==> client.entries == old(client.entries)
    {
      var reply := client.SetEx(SessionKey(prefix, sessionId), ttl,
                                Dict(SessionRecord(sessionData, sessionId, client.now)));
      ok := reply.Ok?;
    }

    /** `load_session`: the stored document, with no check of its own content. */
    method LoadSession(sessionId: string) returns (r: Option<Value>)
      ensures var key := SessionKey(prefix, sessionId);
        r == if client.reachable then client.Lookup(key) else None
    {
      var got := client.Get(SessionKey(prefix, sessionId));
      r := if got.Ok? then got.value else None;
    }

    /** `delete_session`: True exactly when a live session was removed. */
    method DeleteSession(sessionId: string) returns (ok: bool)
      modifies client
      ensures client.now == old(client.now) && client.reachable == old(client.reachable)
      ensures ok <==> client.reachable && old(client.Live(SessionKey(prefix, sessionId)))
      ensures client.reachable ==> client.entries == old(client.entries) - {SessionKey(prefix, sessionId)}
      ensures !client.reachable ==> client.entries == old(client.entries)
    {
      var reply := client.Delete(SessionKey(prefix, sessionId));
      ok := reply.Ok? && reply.value > 0;
    }

    /** The live session keys of this store. */
    function SessionKeys(): (keys: set<string>)
      reads this, client
    {
      client.LiveKeysWithPrefix(SessionPattern(prefix))
    }

    /** Every live session document is a dict (otherwise the scan raises). */
    predicate SessionsReadable()
      reads this, client
    {
      forall k :: k in SessionKeys() ==> client.entries[k].value.Dict?
    }

    /** The live session keys whose document belongs to `userOid`. */
    function OwnedSessionKeys(userOid: string): (keys: set<string>)
      reads this, client
      ensures forall k :: k in keys <==> k in SessionKeys() && OwnedBy(client.entries[k].value, userOid)
    {
      set k | k in SessionKeys() && OwnedBy(client.entries[k].value, userOid)
    }

    /** `get_user_sessions`: the `session_id` of exactly the live sessions whose `user_oid` is
        `userOid`, one entry per such session. A failed scan, and a session document that is not
        a dict, give []. */
    method GetUserSessions(userOid: string) returns (ids: seq<Value>)
      ensures !client.reachable || !SessionsReadable() ==> ids == []
      ensures client.reachable && SessionsReadable() ==>
        forall v :: v in ids <==>
          exists k :: k in OwnedSessionKeys(userOid) && v == Get(client.entries[k].value.fields, "session_id")
      ensures client.reachable && SessionsReadable() ==> |ids| == |OwnedSessionKeys(userOid)|
    {
      var scan := client.ScanPrefix(SessionPattern(prefix));
      if scan.Failed? {
        return [];
      }
      var keys := scan.value;
      var remaining := keys;
      ghost var owned: set<string> := {};
      ids := [];
      while remaining != {}
        invariant remaining <= keys
        invariant keys == SessionKeys()
        invariant forall k :: k in keys - remaining ==> client.entries[k].value.Dict?
        invariant forall k :: k in owned <==> k in keys - remaining && OwnedBy(client.entries[k].value, userOid)
        invariant |ids| == |owned|
        invariant forall v :: v in ids <==>
          exists k :: k in owned && v == Get(client.entries[k].value.fields, "session_id")
        decreases remaining
      {
        var k :| k in remaining;
        var got := client.Get(k);
        var data := got.value.value;
        if !data.Dict? {
          return [];
        }
        if Get(data.fields, "user_oid") == Str(userOid) {
          SessionIdsExtended(client.entries, ids, owned, k);
          ids := ids + [Get(data.fields, "session_id")];
          owned := owned + {k};
        }
        remaining := remaining - {k};
      }
      assert owned == OwnedSessionKeys(userOid);
    }
  }
  /** One more owned session adds its `session_id` to the listed ids, and one entry to them. */
  lemma SessionIdsExtended(entries: map<string, Entry>, ids: seq<Value>, owned: set<string>, k: string)
    requires forall k' :: k' in owned ==> k' in entries && entries[k'].value.Dict?
    requires k in entries && entries[k].value.Dict? && k !in owned
    requires |ids| == |owned|
    requires forall v :: v in ids <==> exists k' :: k' in owned && v == Get(entries[k'].value.fields, "session_id")
    ensures |ids + [Get(entries[k].value.fields, "session_id")]| == |owned + {k}|
    ensures forall v :: v in ids + [Get(entries[k].value.fields, "session_id")] <==>
      exists k' :: k' in owned + {k} && v == Get(entries[k'].value.fields, "session_id")
  {
    var v0 := Get(entries[k].value.fields, "session_id");
    forall v | v in ids + [v0]
      ensures exists k' :: k' in owned + {k} && v == Get(entries[k'].value.fields, "session_id")
    {
      if v == v0 {
        assert k in owned + {k};
      }
    }
  }

  /** Round trip of `set_auth_code` and `get_auth_code`: after binding `authCode` and waiting
      `seconds`, the code answers `userOid` exactly while the TTL has not elapsed, and reading
      it twice answers the same, since a read removes nothing. */
  method AuthCodeRoundTrip(store: RedisTokenStore, authCode: string, userOid: string, ttl: int, seconds: nat)
    returns (first: Option<string>, second: Option<string>)
    modifies store.client
    ensures old(store.client.reachable) && ttl > 0 ==> first == (if seconds < ttl then Some(userOid) else None)
    ensures !old(store.client.reachable) ==> first == None
    ensures second == first
  {
    var _ := store.SetAuthCode(authCode, userOid, ttl);
    store.client.Advance(seconds);
    first := store.GetAuthCode(authCode);
    second := store.GetAuthCode(authCode);
  }

  /** After `delete_auth_code`, `get_auth_code` answers None, whether the delete found a live
      code or not. */
  method DeletedAuthCodeIsGone(store: RedisTokenStore, authCode: string) returns (deleted: bool, after: Option<string>)
    modifies store.client
    ensures deleted <==> old(store.client.reachable) && old(store.client.Live(AuthCodeKey(store.prefix, authCode)))
    ensures after == None
  {
    deleted := store.DeleteAuthCode(authCode);
    after := store.GetAuthCode(authCode);
  }

  /** Round trip of `save_token` and `load_token`: the saved record comes back, with its
      `stored_at` and `user_oid`, after a successful save exactly when the record's own
      `expires_at` lies in the future. */
  method TokenRoundTrip(store: RedisTokenStore, userOid: string, tokenData: Dict) returns (saved: bool, loaded: Option<Dict>)
    modifies store.client
    ensures saved <==> old(store.client.reachable) && TokenTtl(tokenData, old(store.client.now)).Some?
    ensures saved ==> loaded == if "expires_at" in tokenData && tokenData["expires_at"].i > store.client.now
                               then Some(StoredToken(tokenData, userOid, store.client.now)) else None
    ensures !old(store.client.reachable) ==> loaded == None
  {
    saved := store.SaveToken(userOid, tokenData);
    if saved {
      StoredTokenFreshness(tokenData, userOid, store.client.now);
    }
    loaded := store.LoadToken(userOid);
  }
}
