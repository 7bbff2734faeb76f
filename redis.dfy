/** The Redis server both credential stores talk to, reduced to what they use: GET, SETEX (and SET
    with EX), DEL and a prefix scan over a key space whose entries carry an absolute expiry time.
    Time is a whole-second clock `now` that only `Advance` moves; `reachable` stands for the
    connection, and every command on an unreachable server fails. */
module Redis {
  import opened Values

  /** A stored value and the instant at which Redis drops it. */
  datatype Entry = Entry(value: Value, expiresAt: int)

  /** Why a command raised instead of answering. */
  datatype Failure = ConnectionLost | InvalidExpireTime

  /** The answer to one command. */
  datatype Reply<T> = Ok(value: T) | Failed(failure: Failure)

  class RedisClient {
    var entries: map<string, Entry>
    var now: nat
    var reachable: bool

    constructor (reachable: bool)
      ensures entries == map[] && now == 0 && this.reachable == reachable
    {
      entries := map[];
      now := 0;
      this.reachable := reachable;
    }

    /** A key is visible while its expiry lies in the future. */
    predicate Live(key: string)
      reads this
    {
      key in entries && now < entries[key].expiresAt
    }

    /** What GET answers on a reachable server. */
    function Lookup(key: string): (r: Option<Value>)
      reads this
      ensures r.Some? <==> Live(key)
      ensures r.Some? ==> r.value == entries[key].value
    {
      if Live(key) then Some(entries[key].value) else None
    }

    /** The live keys starting with `prefix`. */
    function LiveKeysWithPrefix(prefix: string): (keys: set<string>)
      reads this
      ensures forall k :: k in keys <==> Live(k) && |prefix| <= |k| && k[..|prefix|] == prefix
    {
      set k | k in entries && Live(k) && |prefix| <= |k| && k[..|prefix|] == prefix
    }

    /** GET key. */
    method Get(key: string) returns (r: Reply<Option<Value>>)
      ensures reachable ==> r == Ok(Lookup(key))
      ensures !reachable ==> r == Failed(ConnectionLost)
    {
      if reachable {
        r := Ok(Lookup(key));
      } else {
        r := Failed(ConnectionLost);
      }
    }

    /** SETEX key ttl value, and SET key value EX ttl: a ttl that is not positive is refused by
        the server ("invalid expire time"). */
    method SetEx(key: string, ttl: int, value: Value) returns (r: Reply<bool>)
      modifies this
      ensures now == old(now) && reachable == old(reachable)
      ensures r == (if !reachable then Failed(ConnectionLost)
                    else if ttl <= 0 then Failed(InvalidExpireTime) else Ok(true))
      ensures r.Ok? ==> entries == old(entries)[key := Entry(value, now + ttl)]
      ensures r.Failed? ==> entries == old(entries)
    {
      if !reachable {
        r := Failed(ConnectionLost);
      } else if ttl <= 0 {
        r := Failed(InvalidExpireTime);
      } else {
        entries := entries[key := Entry(value, now + ttl)];
        r := Ok(true);
      }
    }

    /** DEL key: answers how many live keys were removed. */
    method Delete(key: string) returns (r: Reply<nat>)
      modifies this
      ensures now == old(now) && reachable == old(reachable)
      ensures !reachable ==> r == Failed(ConnectionLost) && entries == old(entries)
      ensures reachable ==> r == Ok(if old(Live(key)) then 1 else 0)
      ensures reachable ==> entries == old(entries) - {key}
    {
      if !reachable {
        r := Failed(ConnectionLost);
      } else {
        r := Ok(if Live(key) then 1 else 0);
        entries := entries - {key};
      }
    }

    /** SCAN with a `prefix*` match pattern, collected into a set (the order of SCAN is not
        modelled). */
    method ScanPrefix(prefix: string) returns (r: Reply<set<string>>)
      ensures reachable ==> r == Ok(LiveKeysWithPrefix(prefix))
      ensures !reachable ==> r == Failed(ConnectionLost)
    {
      if reachable {
        r := Ok(LiveKeysWithPrefix(prefix));
      } else {
        r := Failed(ConnectionLost);
      }
    }

    /** The passing of time. */
    method Advance(seconds: nat)
      modifies this
      ensures now == old(now) + seconds
      ensures entries == old(entries) && reachable == old(reachable)
    {
      now := now + seconds;
    }
  }
}
