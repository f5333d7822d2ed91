/** The shared store: expiring keys, the commands the program sends, and its two adapters. */
module Redis {
  import opened Prelude
  import opened Keys

  datatype Value = Counter(count: nat) | Text(payload: string) | Items(items: seq<string>)

  /** Times are milliseconds; an entry is gone once `now` reaches its expiry. */
  datatype Entry = Entry(value: Value, expiry: Option<nat>)

  type Keyspace = map<string, Entry>

  datatype StoreError = WrongType | BadTtl | BadMaxItems

  function Live(ks: Keyspace, key: string, now: nat): Option<Value> {
    if key in ks && !Expired(ks[key], now) then Some(ks[key].value) else None
  }

  predicate Expired(e: Entry, now: nat) {
    e.expiry.Some? && now >= e.expiry.value
  }

  function LastN<T>(xs: seq<T>, n: nat): seq<T> {
    if |xs| <= n then xs else xs[|xs| - n..]
  }

  /** The part of a list from `start` to `stop`, both included; negative positions count from the end. */
  function Slice<T>(xs: seq<T>, start: int, stop: int): seq<T> {
    var from := if start >= 0 then start else if |xs| + start >= 0 then |xs| + start else 0;
    var last := if stop < 0 then |xs| + stop else if stop < |xs| then stop else |xs| - 1;
    if from <= last then xs[from..last + 1] else []
  }

  /** `-n` to `-1` are the last n items, all of a shorter list. */
  lemma LastItems<T>(xs: seq<T>, n: int)
    requires n > 0
    ensures Slice(xs, -n, -1) == LastN(xs, n)
    ensures |xs| <= n ==> LastN(xs, n) == xs
    ensures |LastN(xs, n)| == if |xs| <= n then |xs| else n
    ensures forall i | 0 <= i < |LastN(xs, n)| :: LastN(xs, n)[i] == xs[|xs| - |LastN(xs, n)| + i]
  {
  }

  // ---------------------------------------------------------------------------
  // What the adapters' operations do to the keyspace
  // ---------------------------------------------------------------------------

  /** INCR, then EXPIRE when the counter is new. */
  function Incremented(ks: Keyspace, key: string, ttl: int, now: nat): (Keyspace, Result<nat, StoreError>) {
    if ttl <= 0 then (ks, Err(BadTtl))
    else match Live(ks, key, now)
         case None => (ks[key := Entry(Counter(1), Some(now + 1000 * ttl))], Ok(1))
         case Some(Counter(n)) =>
           var expiry := if n + 1 == 1 then Some(now + 1000 * ttl) else ks[key].expiry;
           (ks[key := Entry(Counter(n + 1), expiry)], Ok(n + 1))
         case Some(_) => (ks, Err(WrongType))
  }

  function Written(
    ks: Keyspace, key: string, payload: string, ttl: Option<int>, now: nat): (Keyspace, Result<bool, StoreError>) {
    if ttl.Some? && ttl.value <= 0 then (ks, Err(BadTtl))
    else
      var expiry := if ttl.Some? then Some(now + 1000 * ttl.value) else None;
      (ks[key := Entry(Text(payload), expiry)], Ok(true))
  }

  function Read(ks: Keyspace, key: string, now: nat): Result<Option<string>, StoreError> {
    match Live(ks, key, now)
    case None => Ok(None)
    case Some(Text(payload)) => Ok(Some(payload))
    case Some(Counter(n)) => Ok(Some(Decimal(n)))
    case Some(Items(_)) => Err(WrongType)
  }

  function Deleted(ks: Keyspace, key: string, now: nat): (Keyspace, nat) {
    (ks - {key}, if Live(ks, key, now).Some? then 1 else 0)
  }

  /** RPUSH, LTRIM to the last `maxItems`, EXPIRE; on a value that is no list only EXPIRE takes effect. */
  function Appended(
    ks: Keyspace, key: string, item: string, maxItems: int, ttl: int, now: nat): (Keyspace, Result<(), StoreError>) {
    if maxItems <= 0 then (ks, Err(BadMaxItems))
    else if ttl <= 0 then (ks, Err(BadTtl))
    else
      var expiry := Some(now + 1000 * ttl);
      match Live(ks, key, now)
      case None => (ks[key := Entry(Items([item]), expiry)], Ok(()))
      case Some(Items(items)) => (ks[key := Entry(Items(LastN(items + [item], maxItems)), expiry)], Ok(()))
      case Some(_) => (ks[key := ks[key].(expiry := expiry)], Err(WrongType))
  }

  function Recent(ks: Keyspace, key: string, maxItems: int, now: nat): Result<seq<string>, StoreError> {
    if maxItems <= 0 then Err(BadMaxItems)
    else match Live(ks, key, now)
         case None => Ok([])
         case Some(Items(items)) => Ok(LastN(items, maxItems))
         case Some(_) => Err(WrongType)
  }

  /** Arguments the adapters refuse, before they send anything. */
  lemma RefusedArguments(ks: Keyspace, key: string, payload: string, n: int, ttl: int, now: nat)
    ensures Incremented(ks, key, ttl, now).1 == Err(BadTtl) <==> ttl <= 0
    ensures Written(ks, key, payload, Some(ttl), now).1 == Err(BadTtl) <==> ttl <= 0
    ensures Written(ks, key, payload, None, now).1 == Ok(true)
    ensures Appended(ks, key, payload, n, ttl, now).1 == Err(BadMaxItems) <==> n <= 0
    ensures Appended(ks, key, payload, n, ttl, now).1 == Err(BadTtl) <==> n > 0 >= ttl
    ensures Recent(ks, key, n, now) == Err(BadMaxItems) <==> n <= 0
    ensures ttl <= 0 ==> Incremented(ks, key, ttl, now).0 == Written(ks, key, payload, Some(ttl), now).0 == ks
    ensures n <= 0 || ttl <= 0 ==> Appended(ks, key, payload, n, ttl, now).0 == ks
  {
    hide LastN;
  }

  /** What was written is read back until its TTL is over, for good without one, and nothing else changes. */
  lemma WrittenIsRead(ks: Keyspace, key: string, payload: string, ttl: Option<int>, now: nat, other: string, later: nat)
    requires (ttl.Some? ==> ttl.value > 0) && later >= now
    ensures var (after, r) := Written(ks, key, payload, ttl, now);
            && r == Ok(true)
            && Read(after, key, later) ==
               Ok(if ttl.None? || later < now + 1000 * ttl.value then Some(payload) else None)
            && (other != key ==> Read(after, other, later) == Read(ks, other, later))
  {
  }

  /** A counter starts at one, goes up by one each time, and is gone a TTL after it started, however often it was
      raised in between. */
  lemma IncrementedIsRead(ks: Keyspace, key: string, ttl: int, now: nat, again: nat, other: string, later: nat)
    requires ttl > 0 && now <= again < now + 1000 * ttl && again <= later && Live(ks, key, now) == None
    ensures var (first, r) := Incremented(ks, key, ttl, now);
            var (second, r') := Incremented(first, key, ttl, again);
            && r == Ok(1) && r' == Ok(2)
            && Live(second, key, later) == (if later < now + 1000 * ttl then Some(Counter(2)) else None)
            && (other != key ==> Live(second, other, later) == Live(ks, other, later))
  {
  }

  /** A live value of another type is refused: counting leaves everything as it is, and appending renews the
      expiry but not the value, since the transaction's other commands still run. */
  lemma WrongTypeLaw(ks: Keyspace, key: string, item: string, n: int, ttl: int, now: nat)
    requires n > 0 && ttl > 0 && Live(ks, key, now).Some?
    ensures !ks[key].value.Counter? ==> Incremented(ks, key, ttl, now) == (ks, Err(WrongType))
    ensures !ks[key].value.Items? ==>
              Appended(ks, key, item, n, ttl, now) ==
              (ks[key := Entry(ks[key].value, Some(now + 1000 * ttl))], Err(WrongType))
    ensures !ks[key].value.Items? ==> Recent(ks, key, n, now) == Err(WrongType)
    ensures Read(ks, key, now) == Err(WrongType) <==> ks[key].value.Items?
  {
    hide LastN, Decimal;
  }

  /** A deleted key reads as nothing, the count says whether it was there, and nothing else changes. */
  lemma DeletedIsGone(ks: Keyspace, key: string, now: nat, other: string, later: nat)
    ensures var (after, n) := Deleted(ks, key, now);
            && Live(after, key, later) == None
            && (n == 1 <==> key in ks && (ks[key].expiry.Some? ==> now < ks[key].expiry.value)) && n <= 1
            && (other != key ==> Live(after, other, later) == Live(ks, other, later))
  {
  }

  // ---------------------------------------------------------------------------
  // The server and its commands
  // ---------------------------------------------------------------------------

  class Server {
    var keys: Keyspace
    var now: nat

    constructor (now: nat)
      ensures keys == map[] && this.now == now
    {
      keys, this.now := map[], now;
    }

    method Incr(key: string) returns (r: Result<nat, StoreError>)
      modifies this`keys
      ensures match Live(old(keys), key, now)
              case None => r == Ok(1) && keys == old(keys)[key := Entry(Counter(1), None)]
              case Some(Counter(n)) =>
                r == Ok(n + 1) && keys == old(keys)[key := old(keys)[key].(value := Counter(n + 1))]
              case Some(_) => r == Err(WrongType) && keys == old(keys)
    {
      match Live(keys, key, now) {
        case None =>
          keys := keys[key := Entry(Counter(1), None)];
          r := Ok(1);
        case Some(Counter(n)) =>
          keys := keys[key := keys[key].(value := Counter(n + 1))];
          r := Ok(n + 1);
        case Some(_) =>
          r := Err(WrongType);
      }
    }

    method Expire(key: string, seconds: nat)
      modifies this`keys
      ensures keys == if Live(old(keys), key, now).Some?
                      then old(keys)[key := old(keys)[key].(expiry := Some(now + 1000 * seconds))]
                      else old(keys)
    {
      if Live(keys, key, now).Some? {
        keys := keys[key := keys[key].(expiry := Some(now + 1000 * seconds))];
      }
    }

    method RPush(key: string, item: string) returns (r: Result<nat, StoreError>)
      modifies this`keys
      ensures match Live(old(keys), key, now)
              case None => r == Ok(1) && keys == old(keys)[key := Entry(Items([item]), None)]
              case Some(Items(items)) =>
                r == Ok(|items| + 1) && keys == old(keys)[key := old(keys)[key].(value := Items(items + [item]))]
              case Some(_) => r == Err(WrongType) && keys == old(keys)
    {
      match Live(keys, key, now) {
        case None =>
          keys := keys[key := Entry(Items([item]), None)];
          r := Ok(1);
        case Some(Items(items)) =>
          keys := keys[key := keys[key].(value := Items(items + [item]))];
          r := Ok(|items| + 1);
        case Some(_) =>
          r := Err(WrongType);
      }
    }

    /** LTRIM: a list trimmed to nothing is removed. */
    method LTrim(key: string, start: int, stop: int) returns (r: Result<(), StoreError>)
      modifies this`keys
      ensures match Live(old(keys), key, now)
              case None => r == Ok(()) && keys == old(keys)
              case Some(Items(items)) =>
                && r == Ok(())
                && keys == if Slice(items, start, stop) == [] then old(keys) - {key}
                           else old(keys)[key := old(keys)[key].(value := Items(Slice(items, start, stop)))]
              case Some(_) => r == Err(WrongType) && keys == old(keys)
    {
      match Live(keys, key, now) {
        case None => r := Ok(());
        case Some(Items(items)) =>
          var kept := Slice(items, start, stop);
          keys := if kept == [] then keys - {key} else keys[key := keys[key].(value := Items(kept))];
          r := Ok(());
        case Some(_) => r := Err(WrongType);
      }
    }

    method LRange(key: string, start: int, stop: int) returns (r: Result<seq<string>, StoreError>)
      ensures match Live(keys, key, now)
              case None => r == Ok([])
              case Some(Items(items)) => r == Ok(Slice(items, start, stop))
              case Some(_) => r == Err(WrongType)
    {
      match Live(keys, key, now) {
        case None => r := Ok([]);
        case Some(Items(items)) => r := Ok(Slice(items, start, stop));
        case Some(_) => r := Err(WrongType);
      }
    }

    /** GET: a counter reads as its decimal numeral. */
    method Get(key: string) returns (r: Result<Option<string>, StoreError>)
      ensures match Live(keys, key, now)
              case None => r == Ok(None)
              case Some(Text(payload)) => r == Ok(Some(payload))
              case Some(Counter(n)) => r == Ok(Some(Decimal(n)))
              case Some(Items(_)) => r == Err(WrongType)
    {
      match Live(keys, key, now) {
        case None => r := Ok(None);
        case Some(Text(payload)) => r := Ok(Some(payload));
        case Some(Counter(n)) => r := Ok(Some(Decimal(n)));
        case Some(Items(_)) => r := Err(WrongType);
      }
    }

    method SetEx(key: string, payload: string, expiry: Option<nat>)
      modifies this`keys
      ensures keys == old(keys)[key := Entry(Text(payload), expiry)]
    {
      keys := keys[key := Entry(Text(payload), expiry)];
    }

    method Del(key: string) returns (n: nat)
      modifies this`keys
      ensures var (after, result) := Deleted(old(keys), key, now); keys == after && n == result
    {
      n := if Live(keys, key, now).Some? then 1 else 0;
      keys := keys - {key};
    }
  }

  class RedisCacheAdapter {
    const client: Server

    constructor (client: Server)
      ensures this.client == client
    {
      this.client := client;
    }

    method Get(key: string) returns (r: Result<Option<string>, StoreError>)
      ensures r == Read(client.keys, key, client.now)
      ensures key !in client.keys || Expired(client.keys[key], client.now) ==> r == Ok(None)
      ensures key in client.keys && !Expired(client.keys[key], client.now) ==>
                match client.keys[key].value
                case Text(payload) => r == Ok(Some(payload))
                case Counter(n) => r == Ok(Some(Decimal(n)))
                case Items(_) => r == Err(WrongType)
    {
      r := client.Get(key);
    }

    method Set(key: string, payload: string, ttl: Option<int>) returns (r: Result<bool, StoreError>)
      modifies client`keys
      ensures var (after, result) := Written(old(client.keys), key, payload, ttl, client.now);
              client.keys == after && r == result
    {
      if ttl.Some? && ttl.value <= 0 {
        return Err(BadTtl);
      }
      client.SetEx(key, payload, if ttl.Some? then Some(client.now + 1000 * ttl.value) else None);
      return Ok(true);
    }

    /** The Lua script, which the server runs as one command. */
    method Increment(key: string, ttl: int) returns (r: Result<nat, StoreError>)
      modifies client`keys
      ensures var (after, result) := Incremented(old(client.keys), key, ttl, client.now);
              client.keys == after && r == result
    {
      if ttl <= 0 {
        return Err(BadTtl);
      }
      r := client.Incr(key);
      if r == Ok(1) {
        client.Expire(key, ttl);
      }
    }

    method Delete(key: string) returns (n: nat)
      modifies client`keys
      ensures var (after, result) := Deleted(old(client.keys), key, client.now); client.keys == after && n == result
    {
      n := client.Del(key);
    }
  }

  class RedisSessionMemoryAdapter {
    const client: Server

    constructor (client: Server)
      ensures this.client == client
    {
      this.client := client;
    }

    /** One transaction: every command runs, the first error is raised. */
    method AppendBounded(key: string, item: string, maxItems: int, ttl: int) returns (r: Result<(), StoreError>)
      modifies client`keys
      ensures var (after, result) := Appended(old(client.keys), key, item, maxItems, ttl, client.now);
              client.keys == after && r == result
    {
      hide Slice, LastN;
      if maxItems <= 0 {
        return Err(BadMaxItems);
      }
      if ttl <= 0 {
        return Err(BadTtl);
      }
      var pushed := client.RPush(key, item);
      if pushed.Ok? {
        LastItems(client.keys[key].value.items, maxItems);
      }
      var trimmed := client.LTrim(key, -maxItems, -1);
      client.Expire(key, ttl);
      r := if pushed.Err? then Err(pushed.error) else trimmed;
    }

    method GetRecent(key: string, maxItems: int) returns (r: Result<seq<string>, StoreError>)
      ensures r == Recent(client.keys, key, maxItems, client.now)
      ensures r == Err(BadMaxItems) <==> maxItems <= 0
      ensures maxItems > 0 && (key !in client.keys || Expired(client.keys[key], client.now)) ==> r == Ok([])
      ensures maxItems > 0 && key in client.keys && !Expired(client.keys[key], client.now) ==>
                match client.keys[key].value
                case Items(items) =>
                  && r.Ok? && |r.value| == (if |items| <= maxItems then |items| else maxItems)
                  && forall i | 0 <= i < |r.value| :: r.value[i] == items[|items| - |r.value| + i]
                case _ => r == Err(WrongType)
    {
      hide Slice, LastN;
      if maxItems <= 0 {
        return Err(BadMaxItems);
      }
      r := client.LRange(key, -maxItems, -1);
      if Live(client.keys, key, client.now).Some? && client.keys[key].value.Items? {
        LastItems(client.keys[key].value.items, maxItems);
      }
    }

    method Delete(key: string) returns (n: nat)
      modifies client`keys
      ensures var (after, result) := Deleted(old(client.keys), key, client.now); client.keys == after && n == result
    {
      n := client.Del(key);
    }
  }
}
