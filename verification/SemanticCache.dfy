/** The response cache, keyed by a hash of the query's normal form. */
module SemanticCache {
  import opened Prelude
  import opened Texts
  import opened Keys
  import opened Redis
  import Json = JsonStrings
  import opened Normalization

  datatype CacheError = StoreFailed(error: StoreError) | Unencodable | InvalidPayload | PayloadTooLarge

  /** `hash` stands for SHA-256 in hexadecimal. */
  datatype CacheConfig = CacheConfig(fold: Folding, hash: Text -> string, ttl: int, maxBytes: int)

  datatype CacheConfigError = BadCacheTtl | BadMaxBytes

  function Rejection(cfg: CacheConfig): Option<CacheConfigError> {
    if cfg.ttl <= 0 then Some(BadCacheTtl) else if cfg.maxBytes <= 0 then Some(BadMaxBytes) else None
  }

  /** UTF-8 has no encoding for surrogates. */
  predicate Encodable(t: Text) {
    forall c | c in t :: !Json.High(c) && !Json.Low(c)
  }

  function KeyOf(cfg: CacheConfig, query: Text): Result<string, CacheError> {
    var normal := Normalize(cfg.fold, query);
    if Encodable(normal) then Ok(SemanticCacheKey(cfg.hash(normal))) else Err(Unencodable)
  }

  function Lookup(ks: Keyspace, cfg: CacheConfig, query: Text, now: nat): Result<Option<Text>, CacheError> {
    match KeyOf(cfg, query)
    case Err(e) => Err(e)
    case Ok(key) =>
      match Read(ks, key, now)
      case Err(e) => Err(StoreFailed(e))
      case Ok(None) => Ok(None)
      case Ok(Some(payload)) =>
        match Json.ReadCachePayload(payload)
        case None => Err(InvalidPayload)
        case Some(response) => Ok(Some(response))
  }

  function Stored(
    ks: Keyspace, cfg: CacheConfig, query: Text, response: Text, now: nat): (Keyspace, Result<bool, CacheError>) {
    var payload := Json.CachePayload(response);
    if |payload| > cfg.maxBytes then (ks, Err(PayloadTooLarge))
    else match KeyOf(cfg, query)
         case Err(e) => (ks, Err(e))
         case Ok(key) =>
           var (after, r) := Written(ks, key, payload, Some(cfg.ttl), now);
           (after, if r.Ok? then Ok(r.value) else Err(StoreFailed(r.error)))
  }

  class SemanticCache {
    const store: RedisCacheAdapter
    const cfg: CacheConfig
    var hits: nat
    var misses: nat

    constructor (store: RedisCacheAdapter, cfg: CacheConfig)
      requires Rejection(cfg) == None
      ensures this.store == store && this.cfg == cfg && hits == 0 && misses == 0
    {
      this.store, this.cfg := store, cfg;
      hits, misses := 0, 0;
    }

    static method Create(
      store: RedisCacheAdapter, cfg: CacheConfig)
      returns (r: Result<SemanticCache, CacheConfigError>)
      ensures r.Ok? <==> cfg.ttl > 0 && cfg.maxBytes > 0
      ensures r.Err? ==> Rejection(cfg) == Some(r.error)
      ensures r.Ok? ==> fresh(r.value) && r.value.store == store && r.value.cfg == cfg
      ensures r.Ok? ==> r.value.hits == r.value.misses == 0
    {
      var rejected := Rejection(cfg);
      if rejected.Some? {
        return Err(rejected.value);
      }
      var cache := new SemanticCache(store, cfg);
      return Ok(cache);
    }

    method Get(query: Text) returns (r: Result<Option<Text>, CacheError>)
      modifies this`hits, this`misses
      ensures r == Lookup(store.client.keys, cfg, query, store.client.now)
      ensures hits == old(hits) + if r.Ok? && r.value.Some? then 1 else 0
      ensures misses == old(misses) + if r.Ok? && r.value.None? then 1 else 0
    {
      var key := KeyOf(cfg, query);
      if key.Err? {
        return Err(key.error);
      }
      var payload := store.Get(key.value);
      if payload.Err? {
        return Err(StoreFailed(payload.error));
      }
      if payload.value.None? {
        misses := misses + 1;
        return Ok(None);
      }
      var response := Json.ReadCachePayload(payload.value.value);
      if response.None? {
        return Err(InvalidPayload);
      }
      hits := hits + 1;
      return Ok(response);
    }

    method Set(query: Text, response: Text) returns (r: Result<bool, CacheError>)
      modifies store.client`keys
      ensures var (after, result) := Stored(old(store.client.keys), cfg, query, response, store.client.now);
              store.client.keys == after && r == result
      ensures r == Err(PayloadTooLarge) <==> |Json.CachePayload(response)| > cfg.maxBytes
      ensures cfg.ttl > 0 ==>
                (r == Ok(true) <==>
                   |Json.CachePayload(response)| <= cfg.maxBytes && Scalar(Normalize(cfg.fold, query)))
    {
      hide Normalize, Json.CachePayload, SemanticCacheKey, Scalar, Encodable;
      EncodableIsScalar(Normalize(cfg.fold, query));
      var payload := Json.CachePayload(response);
      if |payload| > cfg.maxBytes {
        return Err(PayloadTooLarge);
      }
      var key := KeyOf(cfg, query);
      if key.Err? {
        return Err(key.error);
      }
      var done := store.Set(key.value, payload, Some(cfg.ttl));
      r := if done.Ok? then Ok(done.value) else Err(StoreFailed(done.error));
    }

    method Delete(query: Text) returns (r: Result<nat, CacheError>)
      modifies store.client`keys
      ensures match KeyOf(cfg, query)
              case Err(e) => r == Err(e) && store.client.keys == old(store.client.keys)
              case Ok(key) =>
                var (after, n) := Deleted(old(store.client.keys), key, store.client.now);
                store.client.keys == after && r == Ok(n)
    {
      var key := KeyOf(cfg, query);
      if key.Err? {
        return Err(key.error);
      }
      var n := store.Delete(key.value);
      return Ok(n);
    }
  }

  lemma RejectionLaw(cfg: CacheConfig)
    ensures Rejection(cfg) == Some(BadCacheTtl) <==> cfg.ttl <= 0
    ensures Rejection(cfg) == Some(BadMaxBytes) <==> cfg.ttl > 0 >= cfg.maxBytes
  {
  }

  /** Neither half of a surrogate pair: what UTF-8 can encode. */
  predicate Scalar(t: Text) {
    forall c | c in t :: c < 0xD800 || 0xE000 <= c
  }

  /** A response is stored if and only if its payload fits and the query's normal form can be encoded; it is
      too large if and only if its payload is; and whatever is refused changes nothing. */
  lemma StoresWhatFits(ks: Keyspace, cfg: CacheConfig, query: Text, response: Text, now: nat)
    requires cfg.ttl > 0
    ensures var (after, r), size, normal :=
              Stored(ks, cfg, query, response, now), |Json.CachePayload(response)|, Normalize(cfg.fold, query);
            && (r == Ok(true) <==> size <= cfg.maxBytes && Scalar(normal))
            && (r == Err(PayloadTooLarge) <==> size > cfg.maxBytes)
            && (r == Err(Unencodable) <==> size <= cfg.maxBytes && !Scalar(normal))
            && (r.Ok? || after == ks)
            && (r.Ok? ==> after == ks[SemanticCacheKey(cfg.hash(normal)) :=
                                      Entry(Redis.Text(Json.CachePayload(response)), Some(now + 1000 * cfg.ttl))])
  {
    hide Normalize, Json.CachePayload, SemanticCacheKey;
    EncodableIsScalar(Normalize(cfg.fold, query));
    hide Encodable, Scalar;
  }

  lemma EncodableIsScalar(t: Text)
    ensures Encodable(t) <==> Scalar(t)
  {
  }

  /** What fits is stored, and found again for every query of the same normal form until the TTL is over, and
      not from then on. */
  lemma StoredIsFound(ks: Keyspace, cfg: CacheConfig, query: Text, response: Text, now: nat, again: Text, later: nat)
    requires cfg.ttl > 0 && |Json.CachePayload(response)| <= cfg.maxBytes && Scalar(Normalize(cfg.fold, query))
    requires Normalize(cfg.fold, again) == Normalize(cfg.fold, query) && later >= now
    ensures Lookup(Stored(ks, cfg, query, response, now).0, cfg, again, later) ==
            Ok(if later < now + 1000 * cfg.ttl then Some(Json.Reread(response)) else None)
  {
    StoresWhatFits(ks, cfg, query, response, now);
    EncodableIsScalar(Normalize(cfg.fold, query));
    hide Stored, Normalize, Json.CachePayload, Json.ReadCachePayload, SemanticCacheKey, Encodable, Scalar;
    Json.CachePayloadReadsBack(response);
  }

  /** Every outcome of a lookup, by what is under the query's key: nothing or something that expired is a miss, a
      cache payload is its response, any other text is an invalid payload, and a list is the store's error. */
  lemma LookupLaw(ks: Keyspace, cfg: CacheConfig, query: Text, now: nat)
    ensures var r, normal := Lookup(ks, cfg, query, now), Normalize(cfg.fold, query);
            var key := SemanticCacheKey(cfg.hash(normal));
            && (r == Err(Unencodable) <==> !Scalar(normal))
            && (Scalar(normal) && (key !in ks || (ks[key].expiry.Some? && ks[key].expiry.value <= now)) ==>
                  r == Ok(None))
            && (Scalar(normal) && key in ks && (ks[key].expiry.Some? ==> now < ks[key].expiry.value) ==>
                  match ks[key].value
                  case Items(_) => r == Err(StoreFailed(WrongType))
                  case Counter(n) =>
                    r == if Json.ReadCachePayload(Decimal(n)).Some? then Ok(Json.ReadCachePayload(Decimal(n)))
                         else Err(InvalidPayload)
                  case Text(payload) =>
                    r == if Json.ReadCachePayload(payload).Some? then Ok(Json.ReadCachePayload(payload))
                         else Err(InvalidPayload))
  {
    EncodableIsScalar(Normalize(cfg.fold, query));
    hide Normalize, Json.ReadCachePayload, SemanticCacheKey, Encodable, Scalar, Decimal;
  }

  /** A deleted query is a miss, until something is stored for its normal form again. */
  lemma DeletedIsMissed(ks: Keyspace, cfg: CacheConfig, query: Text, now: nat, later: nat)
    requires Scalar(Normalize(cfg.fold, query))
    ensures KeyOf(cfg, query).Ok?
    ensures Lookup(Deleted(ks, KeyOf(cfg, query).value, now).0, cfg, query, later) == Ok(None)
  {
    EncodableIsScalar(Normalize(cfg.fold, query));
    hide Normalize, Json.ReadCachePayload, SemanticCacheKey, Encodable, Scalar;
  }

  /** Storing for one query leaves every query of another hash as it was. */
  lemma StoringIsLocal(ks: Keyspace, cfg: CacheConfig, query: Text, response: Text, now: nat, other: Text, later: nat)
    requires cfg.hash(Normalize(cfg.fold, other)) != cfg.hash(Normalize(cfg.fold, query))
    ensures Lookup(Stored(ks, cfg, query, response, now).0, cfg, other, later) == Lookup(ks, cfg, other, later)
  {
    hide Normalize, Json.CachePayload, Json.ReadCachePayload, SemanticCacheKey;
    var h, h' := cfg.hash(Normalize(cfg.fold, other)), cfg.hash(Normalize(cfg.fold, query));
    if SemanticCacheKey(h) == SemanticCacheKey(h') {
      SemanticCacheKeyInjective(h, h');
    }
  }
}
