/** The example tree's credential store: token records under `prefix:oid` and auth codes under
    `authcode:code`. It catches nothing, so every Redis failure raises to the caller, and it
    neither clamps the TTL nor checks `expires_at` on load.

    Redis holds text. A token record is written as `json.dumps` of the document and an auth code
    as the bare oid, so a key of the client holds `Str(t)` for the bare text `t` and any other
    `Value` for the JSON text of that value. `json.dumps` and `json.loads` are library calls:
    the store receives them as `encode` and `decode` (None where `json.loads` raises). */
module ExampleTokenStore {
  import opened Values
  import opened Redis

  const DefaultPrefix: string := "token"

  /** `_make_key`: the prefix, a colon, and the oid at the end of the key. */
  function TokenKey(prefix: string, userOid: string): (k: string)
    ensures |k| == |prefix| + 1 + |userOid| && k[..|prefix|] == prefix && k[|prefix|] == ':'
    ensures k[|prefix| + 1..] == userOid
  {
    prefix + ":" + userOid
  }

  /** `_make_authcode_key`: always under "authcode:", whatever the store's prefix. */
  function AuthCodeKey(authCode: string): (k: string)
    ensures |k| == 9 + |authCode| && k[..9] == "authcode:" && k[9..] == authCode
  {
    "authcode:" + authCode
  }

  /** With the default prefix a token key and an auth-code key never meet. */
  lemma DefaultPrefixKeepsNamespacesApart(userOid: string, authCode: string)
    ensures TokenKey(DefaultPrefix, userOid) != AuthCodeKey(authCode)
  {
    assert TokenKey(DefaultPrefix, userOid)[0] == 't';
    assert AuthCodeKey(authCode)[0] == 'a';
  }

  /** With the prefix "authcode" the token of user `x` and the auth code `x` share one key. */
  lemma AuthcodePrefixCollides(x: string)
    ensures TokenKey("authcode", x) == AuthCodeKey(x)
  {
  }

  /** A token key and an auth-code key can coincide only when the prefix starts with
      "authcode": the default prefix "token" keeps the namespaces apart, "authcode" does not. */
  lemma CollisionNeedsAuthcodePrefix(prefix: string, userOid: string, authCode: string)
    requires TokenKey(prefix, userOid) == AuthCodeKey(authCode)
    ensures |prefix| >= 8 && prefix[..8] == "authcode"
  {
    var k := TokenKey(prefix, userOid);
    assert k[|prefix|] == ':';
    assert forall i :: 0 <= i < 8 ==> AuthCodeKey(authCode)[i] == "authcode"[i] != ':';
    assert k[..8] == prefix[..8];
    assert AuthCodeKey(authCode)[..8] == "authcode";
  }

  /** The TTL `save_token` writes with: `expires_at - now` with no lower bound, where a missing
      `expires_at` stands for `now + 3600`; None when `expires_at` is not a number. */
  function Ttl(tokenData: Dict, now: int): (ttl: Option<int>)
    ensures ttl.Some? <==> "expires_at" !in tokenData || tokenData["expires_at"].Int?
    ensures "expires_at" !in tokenData ==> ttl == Some(3600)
    ensures "expires_at" in tokenData && tokenData["expires_at"].Int? ==>
      ttl == Some(tokenData["expires_at"].i - now)
  {
    if "expires_at" !in tokenData then Some(now + 3600 - now)
    else match tokenData["expires_at"]
      case Int(e) => Some(e - now)
      case _ => None
  }

  class RedisTokenStore {
    const client: RedisClient
    const prefix: string
    const encode: Value -> string
    const decode: string -> Option<Value>

    constructor (client: RedisClient, prefix: string, encode: Value -> string, decode: string -> Option<Value>)
      ensures this.client == client && this.prefix == prefix
      ensures this.encode == encode && this.decode == decode
    {
      this.client := client;
      this.prefix := prefix;
      this.encode := encode;
      this.decode := decode;
    }

    /** The text Redis holds for the stored value `v`. */
    function StoredText(v: Value): (t: string)
      ensures v.Str? ==> t == v.s
      ensures !v.Str? ==> t == encode(v)
    {
      if v.Str? then v.s else encode(v)
    }

    /** What `load_token` answers for `key` on a reachable server: None for an absent key or
        empty text, and otherwise `json.loads` of the stored text, which raises on text that is
        not JSON (a bare oid, say). */
    function Loaded(key: string): (r: Outcome<Option<Value>>)
      reads this, client
      ensures !client.Live(key) ==> r == Returned(None)
      ensures client.Live(key) && StoredText(client.entries[key].value) == "" ==> r == Returned(None)
      ensures client.Live(key) && StoredText(client.entries[key].value) != "" ==>
        var doc := decode(StoredText(client.entries[key].value));
        (r.RaisedError? <==> doc.None?) && (doc.Some? ==> r == Returned(doc))
    {
      if !client.Live(key) then Returned(None)
      else ParsedText(StoredText(client.entries[key].value))
    }

    /** `json.loads(val) if val else None` on the text `val`. */
    function ParsedText(text: string): (r: Outcome<Option<Value>>)
      reads this
      ensures text == "" ==> r == Returned(None)
      ensures text != "" ==> (r.RaisedError? <==> decode(text).None?)
      ensures text != "" && decode(text).Some? ==> r == Returned(decode(text))
    {
      if text == "" then Returned(None)
      else if decode(text).Some? then Returned(decode(text)) else RaisedError
    }

    /** `save_token`: stores the record as given for `expires_at - now` seconds. A record
        whose `expires_at` is not in the future makes Redis refuse the write, which raises. */
    method SaveToken(userOid: string, tokenData: Dict) returns (s: Status)
      modifies client
      ensures client.now == old(client.now) && client.reachable == old(client.reachable)
      ensures s == Completed <==> client.reachable && Ttl(tokenData, client.now).Some? &&
                                  Ttl(tokenData, client.now).value > 0
      ensures s == Completed ==> client.entries == old(client.entries)[TokenKey(prefix, userOid) :=
        Entry(Dict(tokenData), client.now + Ttl(tokenData, client.now).value)]
      ensures s == Raised ==> client.entries == old(client.entries)
    {
      var ttl := Ttl(tokenData, client.now);
      if ttl.None? {
        return Raised;
      }
      var reply := client.SetEx(TokenKey(prefix, userOid), ttl.value, Dict(tokenData));
      s := if reply.Ok? then Completed else Raised;
    }

    /** `load_token`: whatever is stored under the key, with no look at its `expires_at`. */
    method LoadToken(userOid: string) returns (r: Outcome<Option<Value>>)
      ensures client.reachable ==> r == Loaded(TokenKey(prefix, userOid))
      ensures !client.reachable ==> r == RaisedError
    {
      var got := client.Get(TokenKey(prefix, userOid));
      if got.Failed? {
        return RaisedError;
      }
      match got.value
      case None =>
        r := Returned(None);
      case Some(v) =>
        r := ParsedText(StoredText(v));
    }

    /** `set_auth_code`: stores the oid itself under the code for `ttl` seconds. */
    method SetAuthCode(authCode: string, userOid: string, ttl: int) returns (s: Status)
      modifies client
      ensures client.now == old(client.now) && client.reachable == old(client.reachable)
      ensures s == Completed <==> client.reachable && ttl > 0
      ensures s == Completed ==> client.entries == old(client.entries)[AuthCodeKey(authCode) :=
        Entry(Str(userOid), client.now + ttl)]
      ensures s == Raised ==> client.entries == old(client.entries)
    {
      var reply := client.SetEx(AuthCodeKey(authCode), ttl, Str(userOid));
      s := if reply.Ok? then Completed else Raised;
    }

    /** The oid `get_auth_code` answers for `authCode` on a reachable server: the stored text
        when the code is live and the text is not empty. */
    function BoundOwner(authCode: string): (r: Option<string>)
      reads this, client
      ensures r.Some? <==> client.Live(AuthCodeKey(authCode)) &&
                           StoredText(client.entries[AuthCodeKey(authCode)].value) != ""
      ensures r.Some? ==> r.value == StoredText(client.entries[AuthCodeKey(authCode)].value)
    {
      var key := AuthCodeKey(authCode);
      if client.Live(key) && StoredText(client.entries[key].value) != ""
      then Some(StoredText(client.entries[key].value)) else None
    }

    /** `get_auth_code`: the stored text decoded; an absent, expired or empty one is None. */
    method GetAuthCode(authCode: string) returns (r: Outcome<Option<string>>)
      ensures !client.reachable ==> r == RaisedError
      ensures client.reachable ==> r == Returned(BoundOwner(authCode))
    {
      var got := client.Get(AuthCodeKey(authCode));
      if got.Failed? {
        return RaisedError;
      }
      if got.value.None? {
        return Returned(None);
      }
      var text := StoredText(got.value.value);
      r := Returned(if text != "" then Some(text) else None);
    }

    /** `delete_auth_code`. */
    method DeleteAuthCode(authCode: string) returns (s: Status)
      modifies client
      ensures client.now == old(client.now) && client.reachable == old(client.reachable)
      ensures s == Completed <==> client.reachable
      ensures s == Completed ==> client.entries == old(client.entries) - {AuthCodeKey(authCode)}
      ensures s == Raised ==> client.entries == old(client.entries)
    {
      var reply := client.Delete(AuthCodeKey(authCode));
      s := if reply.Ok? then Completed else Raised;
    }
  }

  /** Round trip of `set_auth_code` and `get_auth_code`: within the TTL the code answers the
      (non-empty) oid; afterwards it answers None. */
  method AuthCodeRoundTrip(store: RedisTokenStore, authCode: string, userOid: string, ttl: int, seconds: nat)
    returns (stored: Status, got: Outcome<Option<string>>)
    requires userOid != ""
    modifies store.client
    ensures stored == Completed <==> old(store.client.reachable) && ttl > 0
    ensures stored == Completed ==> got == Returned(if seconds < ttl then Some(userOid) else None)
  {
    stored := store.SetAuthCode(authCode, userOid, ttl);
    store.client.Advance(seconds);
    got := store.GetAuthCode(authCode);
  }

  /** After a completed `delete_auth_code`, `get_auth_code` answers None. */
  method DeletedAuthCodeIsGone(store: RedisTokenStore, authCode: string) returns (deleted: Status, after: Outcome<Option<string>>)
    modifies store.client
    ensures deleted == Completed ==> after == Returned(None)
  {
    deleted := store.DeleteAuthCode(authCode);
    after := store.GetAuthCode(authCode);
  }

  /** With the prefix "authcode", saving the token of user `x` overwrites whatever auth code `x`
      was bound to, and `get_auth_code(x)` then answers the record's JSON text as an oid. */
  method TokenOverwritesAuthCode(store: RedisTokenStore, x: string, tokenData: Dict)
    returns (s: Status, got: Outcome<Option<string>>)
    requires store.prefix == "authcode"
    modifies store.client
    ensures s == Completed ==> AuthCodeKey(x) in store.client.entries &&
                               store.client.entries[AuthCodeKey(x)].value == Dict(tokenData)
    ensures s == Completed ==>
      var text := store.encode(Dict(tokenData));
      got == Returned(if text != "" then Some(text) else None)
  {
    s := store.SaveToken(x, tokenData);
    AuthcodePrefixCollides(x);
    got := store.GetAuthCode(x);
  }

  /** Round trip of `save_token` and `load_token`: right after a completed save, the load parses
      the record's JSON text, and so answers the record whenever `json.loads` reads back what
      `json.dumps` wrote. */
  method TokenRoundTrip(store: RedisTokenStore, userOid: string, tokenData: Dict)
    returns (s: Status, loaded: Outcome<Option<Value>>)
    modifies store.client
    ensures s == Completed ==> loaded == store.ParsedText(store.encode(Dict(tokenData)))
    ensures s == Completed && store.encode(Dict(tokenData)) != "" &&
            store.decode(store.encode(Dict(tokenData))) == Some(Dict(tokenData)) ==>
      loaded == Returned(Some(Dict(tokenData)))
  {
    s := store.SaveToken(userOid, tokenData);
    loaded := store.LoadToken(userOid);
  }

  /** With the prefix "authcode", binding the code `x` to an oid overwrites the token of user
      `x`, and `load_token(x)` then hands the bare oid to `json.loads`, which raises unless the
      oid happens to be JSON text. */
  method AuthCodeOverwritesToken(store: RedisTokenStore, x: string, userOid: string, ttl: int)
    returns (s: Status, loaded: Outcome<Option<Value>>)
    requires store.prefix == "authcode" && userOid != ""
    modifies store.client
    ensures s == Completed ==>
      loaded == if store.decode(userOid).Some? then Returned(Some(store.decode(userOid).value)) else RaisedError
  {
    s := store.SetAuthCode(x, userOid, ttl);
    AuthcodePrefixCollides(x);
    loaded := store.LoadToken(x);
  }
}
