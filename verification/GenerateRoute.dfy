/** The generate endpoint: look in the cache, else ask the gateway and store, whatever the cache does. */
module GenerateRoute {
  import opened Prelude
  import opened Texts
  import opened Keys
  import opened Redis
  import Json = JsonStrings
  import opened Normalization
  import opened GatewaySpec
  import opened StepSystems
  import Cache = SemanticCache

  datatype GenerateResponse = GenerateResponse(content: Text, model: string, source: string)

  datatype RouteError = InvalidPrompt | GatewayFailed(kind: ErrorKind)

  const CACHE_SOURCE := "semantic_cache"
  const LLM_SOURCE := "llm"

  const MAX_PROMPT: nat := 10_000

  predicate ValidPrompt(prompt: Text) {
    1 <= |prompt| <= MAX_PROMPT
  }

  /** How a cache write can go wrong: not at all, lost, or carried out and then reported as failed. */
  datatype WriteFault = NoFault | Lost | AppliedButRaised

  /** What a request amounts to: `asked` counts gateway calls, `reply` is what the gateway would say. */
  ghost predicate Served(
    cfg: Cache.CacheConfig, ks: Keyspace, now: nat, prompt: Text, reply: Result<LLMResponse, ErrorKind>, getFails: bool,
    fault: WriteFault, r: Result<GenerateResponse, RouteError>, asked: nat, after: Keyspace)
  {
    var found := Cache.Lookup(ks, cfg, prompt, now);
    if !ValidPrompt(prompt) then
      r == Err(InvalidPrompt) && asked == 0 && after == ks
    else if !getFails && found.Ok? && found.value.Some? then
      r == Ok(GenerateResponse(found.value.value, "cache", CACHE_SOURCE)) && asked == 0 && after == ks
    else
      && asked == 1
      && match reply
         case Err(kind) => r == Err(GatewayFailed(kind)) && after == ks
         case Ok(fresh') =>
           && r == Ok(GenerateResponse(fresh'.content, fresh'.model, LLM_SOURCE))
           && after == if fault.Lost? then ks else Cache.Stored(ks, cfg, prompt, fresh'.content, now).0
  }

  /** The endpoint, run without interruption. `ask` is what the gateway would answer; `getFails` makes the
      store raise on reading, `fault` says what becomes of the write. */
  method Generate(cache: Cache.SemanticCache, prompt: Text, ask: Text -> Result<LLMResponse, ErrorKind>,
                  getFails: bool, fault: WriteFault)
    returns (r: Result<GenerateResponse, RouteError>, asked: nat)
    modifies cache`hits, cache`misses, cache.store.client`keys
    ensures Served(cache.cfg, old(cache.store.client.keys), cache.store.client.now, prompt, ask(prompt),
                   getFails, fault, r, asked, cache.store.client.keys)
  {
    asked := 0;
    if !ValidPrompt(prompt) {
      return Err(InvalidPrompt), asked;
    }
    var cached: Option<Text> := None;
    if !getFails {
      var found := cache.Get(prompt);
      if found.Ok? {
        cached := found.value;
      }
    }
    if cached.Some? {
      return Ok(GenerateResponse(cached.value, "cache", CACHE_SOURCE)), asked;
    }
    var reply := ask(prompt);
    asked := 1;
    if reply.Err? {
      return Err(GatewayFailed(reply.error)), asked;
    }
    if !fault.Lost? {
      var _ := cache.Set(prompt, reply.value.content);  // whatever it raises is suppressed
    }
    return Ok(GenerateResponse(reply.value.content, reply.value.model, LLM_SOURCE)), asked;
  }

  // ---------------------------------------------------------------------------
  // Many requests at once
  // ---------------------------------------------------------------------------

  datatype Request =
    | Looking(prompt: Text)
    | Found(prompt: Text, content: Text, readAt: nat)
    | Asking(prompt: Text)
    | Storing(prompt: Text, reply: LLMResponse)

  datatype Source = FromStore(readAt: nat) | FromGateway

  datatype Answer = Answer(id: nat, prompt: Text, content: Text, source: Source, at: nat)

  /** A reply of the gateway, and a write of it to the cache. */
  datatype Reply = Reply(id: nat, prompt: Text, content: Text)
  datatype Write = Write(prompt: Text, content: Text, at: nat)

  /** `landed` holds the replies whose write reached the store. */
  datatype Sys = Sys(
    ks: Keyspace, now: nat, requests: map<nat, Request>, used: set<nat>,
    asked: seq<nat>, replies: seq<Reply>, landed: set<nat>, writes: seq<Write>, answers: seq<Answer>,
    failures: seq<(nat, ErrorKind)>, cancelled: nat)

  datatype Step =
    | Begin(id: nat, prompt: Text)
    | Look(id: nat, raises: bool)
    | Deliver(id: nat)
    | GatewayReturns(id: nat, result: Result<LLMResponse, ErrorKind>)
    | Land(reply: nat)  // its write reaches the store: in time, late, after a cancellation, or never
    | Finish(id: nat)
    | Cancel(id: nat)
    | Vanish(key: string)
    | ForeignWrite(key: string, entry: Entry)
    | Tick(d: nat)

  ghost predicate Enabled(s: Sys, step: Step) {
    match step
    case Begin(id, prompt) => id !in s.used && ValidPrompt(prompt)
    case Look(id, _) => id in s.requests && s.requests[id].Looking?
    case Deliver(id) => id in s.requests && s.requests[id].Found?
    case GatewayReturns(id, _) => id in s.requests && s.requests[id].Asking?
    case Land(reply) => reply < |s.replies| && reply !in s.landed
    case Finish(id) => id in s.requests && s.requests[id].Storing?
    case Cancel(id) => id in s.requests
    case Vanish(_) => true
    case ForeignWrite(key, _) => forall h :: key != SemanticCacheKey(h)
    case Tick(_) => true
  }

  function Next(cfg: Cache.CacheConfig, s: Sys, step: Step): Sys
    requires Enabled(s, step)
  {
    match step
    case Begin(id, prompt) => s.(requests := s.requests[id := Looking(prompt)], used := s.used + {id})
    case Look(id, raises) =>
      var prompt := s.requests[id].prompt;
      var found := Cache.Lookup(s.ks, cfg, prompt, s.now);
      if !raises && found.Ok? && found.value.Some? then
        s.(requests := s.requests[id := Found(prompt, found.value.value, s.now)])
      else
        s.(requests := s.requests[id := Asking(prompt)], asked := s.asked + [id])
    case Deliver(id) =>
      var k := s.requests[id];
      s.(requests := s.requests - {id},
         answers := s.answers + [Answer(id, k.prompt, k.content, FromStore(k.readAt), s.now)])
    case GatewayReturns(id, Ok(reply)) =>
      var prompt := s.requests[id].prompt;
      s.(requests := s.requests[id := Storing(prompt, reply)],
         replies := s.replies + [Reply(id, prompt, reply.content)])
    case GatewayReturns(id, Err(kind)) =>
      s.(requests := s.requests - {id}, failures := s.failures + [(id, kind)])
    case Land(reply) =>
      var k := s.replies[reply];
      var (ks, r) := Cache.Stored(s.ks, cfg, k.prompt, k.content, s.now);
      if r.Err? then s.(landed := s.landed + {reply})
      else s.(landed := s.landed + {reply}, ks := ks, writes := s.writes + [Write(k.prompt, k.content, s.now)])
    case Finish(id) =>
      var k := s.requests[id];
      s.(requests := s.requests - {id},
         answers := s.answers + [Answer(id, k.prompt, k.reply.content, FromGateway, s.now)])
    case Cancel(id) => s.(requests := s.requests - {id}, cancelled := s.cancelled + 1)
    case Vanish(key) => s.(ks := s.ks - {key})
    case ForeignWrite(key, entry) => s.(ks := s.ks[key := entry])
    case Tick(d) => s.(now := s.now + d)
  }

  /** The entry is what write `wr` left there. */
  ghost predicate Left(cfg: Cache.CacheConfig, e: Entry, hash: string, wr: Write) {
    && cfg.hash(Normalize(cfg.fold, wr.prompt)) == hash
    && e.value == Redis.Text(Json.CachePayload(wr.content))
    && e.expiry.Some? && e.expiry.value == wr.at + 1000 * cfg.ttl
  }

  ghost predicate CacheInv(cfg: Cache.CacheConfig, s: Sys) {
    forall h | SemanticCacheKey(h) in s.ks :: exists wr :: wr in s.writes && Left(cfg, s.ks[SemanticCacheKey(h)], h, wr)
  }

  /** Content read from the cache at `readAt` repeats a write of the same hash, made less than the TTL ago. */
  ghost predicate Repeats(cfg: Cache.CacheConfig, prompt: Text, content: Text, readAt: nat, wr: Write) {
    && cfg.hash(Normalize(cfg.fold, wr.prompt)) == cfg.hash(Normalize(cfg.fold, prompt))
    && content == Json.Reread(wr.content)
    && wr.at <= readAt < wr.at + 1000 * cfg.ttl
  }

  ghost predicate ReadFromCache(cfg: Cache.CacheConfig, s: Sys, prompt: Text, content: Text, readAt: nat) {
    readAt <= s.now && exists wr :: wr in s.writes && Repeats(cfg, prompt, content, readAt, wr)
  }

  ghost predicate Justified(cfg: Cache.CacheConfig, s: Sys, a: Answer) {
    match a.source
    case FromStore(readAt) => readAt <= a.at && ReadFromCache(cfg, s, a.prompt, a.content, readAt)
    case FromGateway => Reply(a.id, a.prompt, a.content) in s.replies
  }

  ghost predicate AnswersInv(cfg: Cache.CacheConfig, s: Sys) {
    && (forall a | a in s.answers :: Justified(cfg, s, a))
    && (forall id | id in s.requests && s.requests[id].Found? ::
          ReadFromCache(cfg, s, s.requests[id].prompt, s.requests[id].content, s.requests[id].readAt))
  }

  ghost predicate BookInv(s: Sys) {
    && Distinct(s.asked)
    && (forall id | id in s.requests :: id in s.used)
    && (forall id | id in s.asked ::
          id in s.used && (id in s.requests ==> s.requests[id].Asking? || s.requests[id].Storing?))
    && (forall wr | wr in s.writes :: wr.at <= s.now && exists id :: Reply(id, wr.prompt, wr.content) in s.replies)
    && (forall k | k in s.landed :: k < |s.replies|)
    && (forall id | id in s.requests && s.requests[id].Storing? ::
          Reply(id, s.requests[id].prompt, s.requests[id].reply.content) in s.replies)
  }

  ghost predicate Inv(cfg: Cache.CacheConfig, s: Sys) {
    CacheInv(cfg, s) && BookInv(s) && AnswersInv(cfg, s)
  }

  lemma StepKeepsBook(cfg: Cache.CacheConfig, s: Sys, step: Step)
    requires BookInv(s) && Enabled(s, step)
    ensures BookInv(Next(cfg, s, step))
  {
    hide Cache.Lookup, Cache.Stored;
    var s' := Next(cfg, s, step);
    forall wr | wr in s'.writes
      ensures wr.at <= s'.now && exists id :: Reply(id, wr.prompt, wr.content) in s'.replies
    {
      if wr in s.writes {
        var id :| Reply(id, wr.prompt, wr.content) in s.replies;
        assert Reply(id, wr.prompt, wr.content) in s'.replies;
      } else {
        var k := s.replies[step.reply];
        assert k == Reply(k.id, wr.prompt, wr.content) && k in s'.replies;
      }
    }
  }

  lemma StoreLeaves(cfg: Cache.CacheConfig, ks: Keyspace, prompt: Text, content: Text, now: nat)
    requires Cache.Stored(ks, cfg, prompt, content, now).1.Ok?
    ensures var h := cfg.hash(Normalize(cfg.fold, prompt));
            Cache.Stored(ks, cfg, prompt, content, now).0 ==
            ks[SemanticCacheKey(h) := Entry(Redis.Text(Json.CachePayload(content)), Some(now + 1000 * cfg.ttl))]
  {
    hide Normalize, Json.CachePayload, SemanticCacheKey;
  }

  lemma StepKeepsCache(cfg: Cache.CacheConfig, s: Sys, step: Step)
    requires CacheInv(cfg, s) && Enabled(s, step)
    ensures CacheInv(cfg, Next(cfg, s, step))
  {
    hide Cache.Lookup, Cache.Stored, SemanticCacheKey, Normalize, Json.CachePayload;
    var s' := Next(cfg, s, step);
    forall h | SemanticCacheKey(h) in s'.ks
      ensures exists wr :: wr in s'.writes && Left(cfg, s'.ks[SemanticCacheKey(h)], h, wr)
    {
      var key := SemanticCacheKey(h);
      if key in s.ks && s'.ks[key] == s.ks[key] {
        var wr :| wr in s.writes && Left(cfg, s.ks[key], h, wr);
        assert wr in s'.writes;
      } else {
        var k := s.replies[step.reply];
        StoreLeaves(cfg, s.ks, k.prompt, k.content, s.now);
        SemanticCacheKeyInjective(h, cfg.hash(Normalize(cfg.fold, k.prompt)));
        var wr := Write(k.prompt, k.content, s.now);
        assert wr in s'.writes && Left(cfg, s'.ks[key], h, wr);
      }
    }
  }

  lemma HitIsFresh(cfg: Cache.CacheConfig, s: Sys, prompt: Text)
    requires CacheInv(cfg, s) && BookInv(s)
    requires var found := Cache.Lookup(s.ks, cfg, prompt, s.now); found.Ok? && found.value.Some?
    ensures ReadFromCache(cfg, s, prompt, Cache.Lookup(s.ks, cfg, prompt, s.now).value.value, s.now)
  {
    hide SemanticCacheKey, Normalize, Json.CachePayload, Json.ReadCachePayload;
    var h := cfg.hash(Normalize(cfg.fold, prompt));
    var wr :| wr in s.writes && Left(cfg, s.ks[SemanticCacheKey(h)], h, wr);
    Json.CachePayloadReadsBack(wr.content);
    assert Repeats(cfg, prompt, Cache.Lookup(s.ks, cfg, prompt, s.now).value.value, s.now, wr);
  }

  lemma StepOnlyAdds(cfg: Cache.CacheConfig, s: Sys, step: Step)
    requires Enabled(s, step)
    ensures var s' := Next(cfg, s, step);
            s.now <= s'.now && s.writes <= s'.writes && s.replies <= s'.replies && s.answers <= s'.answers
  {
    hide Cache.Lookup, Cache.Stored;
  }

  lemma StaysRead(cfg: Cache.CacheConfig, s: Sys, s': Sys, prompt: Text, content: Text, readAt: nat)
    requires ReadFromCache(cfg, s, prompt, content, readAt) && s.now <= s'.now && s.writes <= s'.writes
    ensures ReadFromCache(cfg, s', prompt, content, readAt) && readAt <= s.now
  {
    hide Repeats;
    var wr :| wr in s.writes && Repeats(cfg, prompt, content, readAt, wr);
    assert wr in s'.writes;
  }

  lemma StepKeepsAnswers(cfg: Cache.CacheConfig, s: Sys, step: Step)
    requires Inv(cfg, s) && Enabled(s, step)
    ensures AnswersInv(cfg, Next(cfg, s, step))
  {
    hide Cache.Lookup, Cache.Stored, CacheInv, ReadFromCache;
    var s' := Next(cfg, s, step);
    StepOnlyAdds(cfg, s, step);
    forall a | a in s'.answers
      ensures Justified(cfg, s', a)
    {
      assert a in s.answers ==> Justified(cfg, s, a);
      if a.source.FromStore? {
        StaysRead(cfg, s, s', a.prompt, a.content, a.source.readAt);
      }
    }
    forall id | id in s'.requests && s'.requests[id].Found?
      ensures ReadFromCache(cfg, s', s'.requests[id].prompt, s'.requests[id].content, s'.requests[id].readAt)
    {
      var k := s'.requests[id];
      if id !in s.requests || s.requests[id] != k {
        HitIsFresh(cfg, s, k.prompt);
      }
      StaysRead(cfg, s, s', k.prompt, k.content, k.readAt);
    }
  }

  // ---------------------------------------------------------------------------
  // Every reachable state
  // ---------------------------------------------------------------------------

  ghost predicate Execution(cfg: Cache.CacheConfig, states: seq<Sys>, steps: seq<Step>) {
    && |states| == |steps| + 1
    && states[0] == Sys(map[], states[0].now, map[], {}, [], [], {}, [], [], [], 0)
    && forall i | 0 <= i < |steps| :: Enabled(states[i], steps[i]) && states[i + 1] == Next(cfg, states[i], steps[i])
  }

  lemma {:induction false} Reachable(cfg: Cache.CacheConfig, states: seq<Sys>, steps: seq<Step>, i: nat)
    requires Execution(cfg, states, steps) && i < |states|
    ensures Inv(cfg, states[i])
  {
    hide Next, CacheInv, BookInv;
    if i == 0 {
      EmptyIsFine(cfg, states[0]);
    } else {
      Reachable(cfg, states, steps, i - 1);
      StepKeepsCache(cfg, states[i - 1], steps[i - 1]);
      StepKeepsBook(cfg, states[i - 1], steps[i - 1]);
      StepKeepsAnswers(cfg, states[i - 1], steps[i - 1]);
    }
  }

  lemma EmptyIsFine(cfg: Cache.CacheConfig, s: Sys)
    requires s == Sys(map[], s.now, map[], {}, [], [], {}, [], [], [], 0)
    ensures Inv(cfg, s)
  {
  }

  /** No two of the prompts in use have different normal forms but the same hash. */
  ghost predicate NoCollision(cfg: Cache.CacheConfig, prompts: set<Text>) {
    forall p, q | p in prompts && q in prompts &&
                  cfg.hash(Normalize(cfg.fold, p)) == cfg.hash(Normalize(cfg.fold, q)) ::
      Normalize(cfg.fold, p) == Normalize(cfg.fold, q)
  }

  /** In every interleaving and under arbitrary cache faults, an answer from the cache repeats a reply the
      gateway gave for a prompt of the same normal form, stored less than the TTL before it was read. */
  lemma CachedAnswersAreSound(
    cfg: Cache.CacheConfig, states: seq<Sys>, steps: seq<Step>, i: nat, a: Answer, prompts: set<Text>)
    returns (wr: Write)
    requires Execution(cfg, states, steps) && i < |states|
    requires a in states[i].answers && a.source.FromStore?
    requires a.prompt in prompts && forall r | r in states[i].replies :: r.prompt in prompts
    requires NoCollision(cfg, prompts)
    ensures exists id :: Reply(id, wr.prompt, wr.content) in states[i].replies
    ensures Normalize(cfg.fold, wr.prompt) == Normalize(cfg.fold, a.prompt)
    ensures a.content == Json.Reread(wr.content)
    ensures wr.at <= a.source.readAt < wr.at + 1000 * cfg.ttl && a.source.readAt <= a.at
  {
    hide Normalize, Json.Reread, CacheInv;
    Reachable(cfg, states, steps, i);
    assert Justified(cfg, states[i], a);
    wr :| wr in states[i].writes && Repeats(cfg, a.prompt, a.content, a.source.readAt, wr);
    var id :| Reply(id, wr.prompt, wr.content) in states[i].replies;
    assert wr.prompt in prompts;
  }

  /** If what the gateway replies depends only on the normal form, and has no split surrogate pair, a client
      cannot tell cached answers from fresh ones. */
  lemma CacheIsTransparent(
    cfg: Cache.CacheConfig, states: seq<Sys>, steps: seq<Step>, i: nat, a: Answer, prompts: set<Text>,
    reply: Text -> Text)
    requires Execution(cfg, states, steps) && i < |states| && a in states[i].answers
    requires a.prompt in prompts && forall r | r in states[i].replies :: r.prompt in prompts
    requires NoCollision(cfg, prompts)
    requires forall r | r in states[i].replies ::
               r.content == reply(Normalize(cfg.fold, r.prompt)) && Json.NoSplitPair(r.content)
    ensures a.content == reply(Normalize(cfg.fold, a.prompt))
  {
    hide Normalize, Json.Reread, CacheInv, Json.NoSplitPair;
    Reachable(cfg, states, steps, i);
    assert Justified(cfg, states[i], a);
    if a.source.FromStore? {
      var wr := CachedAnswersAreSound(cfg, states, steps, i, a, prompts);
      var id :| Reply(id, wr.prompt, wr.content) in states[i].replies;
      Json.RereadIsIdentity(wr.content);
    }
  }

  /** Nothing takes the entry of this hash away: no eviction, and no later write of the same hash. */
  ghost predicate KeepsEntry(cfg: Cache.CacheConfig, s: Sys, step: Step, h: string)
    requires Enabled(s, step)
  {
    match step
    case Vanish(key) => key != SemanticCacheKey(h)
    case Land(reply) => cfg.hash(Normalize(cfg.fold, s.replies[reply].prompt)) != h
    case _ => true
  }

  lemma StepKeepsEntry(cfg: Cache.CacheConfig, s: Sys, step: Step, h: string)
    requires Enabled(s, step) && KeepsEntry(cfg, s, step, h) && SemanticCacheKey(h) in s.ks
    ensures var s', key := Next(cfg, s, step), SemanticCacheKey(h);
            key in s'.ks && s'.ks[key] == s.ks[key] && s'.now >= s.now
  {
    hide Cache.Lookup, Cache.Stored, SemanticCacheKey, Normalize, Json.CachePayload;
    if step.Land? {
      var k := s.replies[step.reply];
      if Cache.Stored(s.ks, cfg, k.prompt, k.content, s.now).1.Ok? {
        StoreLeaves(cfg, s.ks, k.prompt, k.content, s.now);
        if SemanticCacheKey(h) == SemanticCacheKey(cfg.hash(Normalize(cfg.fold, k.prompt))) {
          SemanticCacheKeyInjective(h, cfg.hash(Normalize(cfg.fold, k.prompt)));
        }
      }
    }
  }

  lemma {:induction false} EntryStays(
    cfg: Cache.CacheConfig, states: seq<Sys>, steps: seq<Step>, i: nat, j: nat, h: string)
    requires Execution(cfg, states, steps) && i <= j < |states| && SemanticCacheKey(h) in states[i].ks
    requires forall k | i <= k < j :: Enabled(states[k], steps[k]) && KeepsEntry(cfg, states[k], steps[k], h)
    ensures var key := SemanticCacheKey(h);
            key in states[j].ks && states[j].ks[key] == states[i].ks[key] && states[j].now >= states[i].now
    decreases j
  {
    hide Next, SemanticCacheKey, KeepsEntry, Enabled;
    if i < j {
      EntryStays(cfg, states, steps, i, j - 1, h);
      StepKeepsEntry(cfg, states[j - 1], steps[j - 1], h);
    }
  }

  /** What the cache is for: once the write of a fitting reply has landed, every request of that normal form that
      looks within the TTL is a hit and does not ask the gateway, as long as nothing evicts or overwrites the
      entry in between and reading does not fail. */
  lemma LandedWriteIsHit(cfg: Cache.CacheConfig, states: seq<Sys>, steps: seq<Step>, i: nat, j: nat)
    requires Execution(cfg, states, steps) && i < j < |steps| && cfg.ttl > 0
    requires steps[i].Land? && steps[i].reply < |states[i].replies| && steps[j].Look? && !steps[j].raises
    requires var wrote := states[i].replies[steps[i].reply];
             && |Json.CachePayload(wrote.content)| <= cfg.maxBytes && Cache.Scalar(Normalize(cfg.fold, wrote.prompt))
             && steps[j].id in states[j].requests
             && Normalize(cfg.fold, states[j].requests[steps[j].id].prompt) == Normalize(cfg.fold, wrote.prompt)
             && forall k | i < k < j ::
                  Enabled(states[k], steps[k]) &&
                  KeepsEntry(cfg, states[k], steps[k], cfg.hash(Normalize(cfg.fold, wrote.prompt)))
    requires states[j].now < states[i].now + 1000 * cfg.ttl
    ensures var wrote, id := states[i].replies[steps[i].reply], steps[j].id;
            && states[j + 1].asked == states[j].asked
            && id in states[j + 1].requests
            && states[j + 1].requests[id] ==
               Found(states[j].requests[id].prompt, Json.Reread(wrote.content), states[j].now)
  {
    var wrote, id := states[i].replies[steps[i].reply], steps[j].id;
    var prompt, key := states[j].requests[id].prompt, SemanticCacheKey(cfg.hash(Normalize(cfg.fold, wrote.prompt)));
    assert states[i + 1] == Next(cfg, states[i], steps[i]) && states[j + 1] == Next(cfg, states[j], steps[j]);
    hide SemanticCacheKey, Normalize, Json.CachePayload, Json.ReadCachePayload;
    hide Cache.Stored, Cache.Lookup, Cache.Scalar;
    Cache.StoresWhatFits(states[i].ks, cfg, wrote.prompt, wrote.content, states[i].now);
    EntryStays(cfg, states, steps, i + 1, j, cfg.hash(Normalize(cfg.fold, wrote.prompt)));
    Json.CachePayloadReadsBack(wrote.content);
    Cache.LookupLaw(states[j].ks, cfg, prompt, states[j].now);
  }

  /** What a client is told: where the answer came from, and from which model. */
  lemma AnswerLabels(
    cfg: Cache.CacheConfig, ks: Keyspace, now: nat, prompt: Text, reply: Result<LLMResponse, ErrorKind>, getFails: bool,
    fault: WriteFault, r: Result<GenerateResponse, RouteError>, asked: nat, after: Keyspace)
    requires Served(cfg, ks, now, prompt, reply, getFails, fault, r, asked, after)
    ensures r == Err(InvalidPrompt) <==> |prompt| == 0 || |prompt| > 10_000
    ensures r.Ok? && asked == 0 ==> r.value.source == "semantic_cache" && r.value.model == "cache"
    ensures r.Ok? && asked == 1 ==> r.value.source == "llm" && reply.Ok? && r.value.model == reply.value.model
  {
    hide Cache.Lookup, Cache.Stored;
  }

  /** Each request asks the gateway at most once. */
  lemma AskedAtMostOnce(cfg: Cache.CacheConfig, states: seq<Sys>, steps: seq<Step>, i: nat)
    requires Execution(cfg, states, steps) && i < |states|
    ensures forall id :: multiset(states[i].asked)[id] <= 1
  {
    Reachable(cfg, states, steps, i);
    hide CacheInv;
    DistinctCountsOnce(states[i].asked);
  }

  lemma {:induction false} DistinctCountsOnce(xs: seq<nat>)
    requires Distinct(xs)
    ensures forall x :: multiset(xs)[x] <= 1
  {
    if xs != [] {
      var init, last := xs[..|xs| - 1], xs[|xs| - 1];
      DistinctCountsOnce(init);
      assert xs == init + [last];
      assert last !in init;
    }
  }

  /** A request fails if and only if the gateway raised an error for that very request: no fault of the
      cache, in reading or in writing, ever reaches a client. */
  lemma {:induction false} FailuresComeFromGateway(
    cfg: Cache.CacheConfig, states: seq<Sys>, steps: seq<Step>, i: nat, f: (nat, ErrorKind))
    requires Execution(cfg, states, steps) && i < |states|
    ensures f in states[i].failures <==> exists j :: 0 <= j < i && steps[j] == GatewayReturns(f.0, Err(f.1))
  {
    hide Cache.Lookup, Cache.Stored;
    if i > 0 {
      assert states[i] == Next(cfg, states[i - 1], steps[i - 1]);
      FailuresComeFromGateway(cfg, states, steps, i - 1, f);
      if steps[i - 1] == GatewayReturns(f.0, Err(f.1)) {
        assert states[i].failures[|states[i].failures| - 1] == f;
      } else if f in states[i - 1].failures {
        assert f in states[i].failures;
      }
    }
  }

  /** No request is lost: each that began is in flight, answered, failed by the gateway, or cancelled. */
  lemma {:induction false} NoRequestIsLost(cfg: Cache.CacheConfig, states: seq<Sys>, steps: seq<Step>, i: nat)
    requires Execution(cfg, states, steps) && i < |states|
    ensures |states[i].used| == |states[i].requests| + |states[i].answers| + |states[i].failures| + states[i].cancelled
  {
    if i > 0 {
      NoRequestIsLost(cfg, states, steps, i - 1);
      Reachable(cfg, states, steps, i - 1);
      OneStepLosesNone(cfg, states[i - 1], steps[i - 1]);
    }
  }

  function Ends(s: Sys): nat {
    |s.answers| + |s.failures| + s.cancelled
  }

  /** A step lets a request in, moves it on, ends it, or concerns none. */
  lemma StepMoves(cfg: Cache.CacheConfig, s: Sys, step: Step)
    requires Enabled(s, step)
    ensures var s' := Next(cfg, s, step);
            match step
            case Begin(id, prompt) =>
              s'.requests == s.requests[id := Looking(prompt)] && s'.used == s.used + {id} && Ends(s') == Ends(s)
            case Look(id, _) =>
              && id in s.requests && id in s'.requests && s'.requests == s.requests[id := s'.requests[id]]
              && s'.used == s.used && Ends(s') == Ends(s)
            case GatewayReturns(id, Ok(reply)) =>
              && id in s.requests && s'.requests == s.requests[id := Storing(s.requests[id].prompt, reply)]
              && s'.used == s.used && Ends(s') == Ends(s)
            case Land(_) => s'.requests == s.requests && s'.used == s.used && Ends(s') == Ends(s)
            case Vanish(_) => s'.requests == s.requests && s'.used == s.used && Ends(s') == Ends(s)
            case ForeignWrite(_, _) => s'.requests == s.requests && s'.used == s.used && Ends(s') == Ends(s)
            case Tick(_) => s'.requests == s.requests && s'.used == s.used && Ends(s') == Ends(s)
            case _ =>
              && step.id in s.requests && s'.requests == s.requests - {step.id}
              && s'.used == s.used && Ends(s') == Ends(s) + 1
  {
    hide Cache.Lookup, Cache.Stored;
  }

  lemma OneStepLosesNone(cfg: Cache.CacheConfig, s: Sys, step: Step)
    requires BookInv(s) && Enabled(s, step) && |s.used| == |s.requests| + Ends(s)
    ensures var s' := Next(cfg, s, step); |s'.used| == |s'.requests| + Ends(s')
  {
    StepMoves(cfg, s, step);
    assert step.Begin? ==> step.id !in s.used && step.id !in s.requests;
    var s' := Next(cfg, s, step);
    hide Next, Enabled, BookInv, Ends;
    if step.Begin? || step.Look? || (step.GatewayReturns? && step.result.Ok?) {
      RequestCounts(s.requests, step.id, s'.requests[step.id]);
    } else if !step.Land? && !step.Vanish? && !step.ForeignWrite? && !step.Tick? {
      RequestCounts(s.requests, step.id, s.requests[step.id]);
    }
  }

  lemma RequestCounts(requests: map<nat, Request>, id: nat, request: Request)
    ensures |requests[id := request]| == |requests| + if id in requests then 0 else 1
    ensures id in requests ==> |requests - {id}| == |requests| - 1
  {
  }

  // ---------------------------------------------------------------------------
  // The endpoint is one of these executions
  // ---------------------------------------------------------------------------

  /** The interleaved requests as a system. */
  ghost function Requests(cfg: Cache.CacheConfig): System<Sys, Step> {
    System((s: Sys, step: Step) => Enabled(s, step),
           (s: Sys, step: Step) => if Enabled(s, step) then Next(cfg, s, step) else s)
  }

  lemma RunsOn(cfg: Cache.CacheConfig, s: Sys, steps: seq<Step>, mid: Sys, step: Step)
    requires Runs(Requests(cfg), s, steps, mid) && Enabled(mid, step)
    ensures Runs(Requests(cfg), s, steps + [step], Next(cfg, mid, step))
  {
    hide Next;
    RunsOne(Requests(cfg), mid, step);
    RunsChain(Requests(cfg), s, steps, mid, [step], Next(cfg, mid, step));
  }

  /** The answer and the books of a request served without interruption. */
  ghost predicate Booked(s: Sys, s': Sys, id: nat, prompt: Text, r: Result<GenerateResponse, RouteError>, asked: nat) {
    && s'.now == s.now && s'.requests == s.requests && s'.used == s.used + {id}
    && s'.asked == (if asked == 1 then s.asked + [id] else s.asked)
    && match r
       case Ok(response) =>
         var source := if response.source == CACHE_SOURCE then FromStore(s.now) else FromGateway;
         s'.answers == s.answers + [Answer(id, prompt, response.content, source, s.now)] && s'.failures == s.failures
       case Err(GatewayFailed(kind)) => s'.answers == s.answers && s'.failures == s.failures + [(id, kind)]
       case Err(InvalidPrompt) => false
  }

  /** A request arrives and has looked into the cache. */
  lemma LookRuns(cfg: Cache.CacheConfig, s: Sys, id: nat, prompt: Text, getFails: bool)
    returns (steps: seq<Step>, s': Sys)
    requires id !in s.used && ValidPrompt(prompt)
    ensures Runs(Requests(cfg), s, steps, s')
    ensures var found := Cache.Lookup(s.ks, cfg, prompt, s.now);
            if !getFails && found.Ok? && found.value.Some? then
              s' == s.(requests := s.requests[id := Found(prompt, found.value.value, s.now)], used := s.used + {id})
            else
              s' == s.(requests := s.requests[id := Asking(prompt)], used := s.used + {id}, asked := s.asked + [id])
  {
    hide Cache.Lookup, Cache.Stored, Runs;
    var a, b := Begin(id, prompt), Look(id, getFails);
    var mid := Next(cfg, s, a);
    RunsNothing(Requests(cfg), s);
    RunsOn(cfg, s, [], s, a);
    RunsOn(cfg, s, [] + [a], mid, b);
    steps, s' := [] + [a] + [b], Next(cfg, mid, b);
  }

  /** The gateway replied, the write does what it does, and the request is answered. */
  lemma ReplyRuns(cfg: Cache.CacheConfig, s: Sys, id: nat, reply: LLMResponse, fault: WriteFault)
    returns (steps: seq<Step>, s': Sys)
    requires BookInv(s) && id in s.requests && s.requests[id].Asking?
    ensures Runs(Requests(cfg), s, steps, s')
    ensures var prompt := s.requests[id].prompt;
            && s'.ks == (if fault.Lost? then s.ks else Cache.Stored(s.ks, cfg, prompt, reply.content, s.now).0)
            && s'.now == s.now && s'.requests == s.requests - {id} && s'.used == s.used && s'.asked == s.asked
            && s'.answers == s.answers + [Answer(id, prompt, reply.content, FromGateway, s.now)]
            && s'.failures == s.failures
  {
    hide Cache.Lookup, Cache.Stored, Runs;
    var a, b, c := GatewayReturns(id, Ok(reply)), Land(|s.replies|), Finish(id);
    RunsNothing(Requests(cfg), s);
    RunsOn(cfg, s, [], s, a);
    steps, s' := [] + [a], Next(cfg, s, a);
    if !fault.Lost? {
      StoredOnlyIfOk(cfg, s.ks, s.requests[id].prompt, reply.content, s.now);
      RunsOn(cfg, s, steps, s', b);
      steps, s' := steps + [b], Next(cfg, s', b);
    }
    RunsOn(cfg, s, steps, s', c);
    steps, s' := steps + [c], Next(cfg, s', c);
  }

  /** Whatever other requests are doing, a request the method serves is an execution of the step system, with
      the method's store, answer and number of gateway calls. */
  lemma RequestIsExecution(
    cfg: Cache.CacheConfig, s: Sys, id: nat, prompt: Text, reply: Result<LLMResponse, ErrorKind>, getFails: bool,
    fault: WriteFault)
    returns (steps: seq<Step>, s': Sys, r: Result<GenerateResponse, RouteError>, asked: nat)
    requires id !in s.used && BookInv(s) && ValidPrompt(prompt)
    ensures Runs(Requests(cfg), s, steps, s')
    ensures Served(cfg, s.ks, s.now, prompt, reply, getFails, fault, r, asked, s'.ks)
    ensures Booked(s, s', id, prompt, r, asked)
  {
    hide Cache.Lookup, Cache.Stored, Runs;
    var a, mid := LookRuns(cfg, s, id, prompt, getFails);
    var b;
    assert id !in s.requests && mid.requests - {id} == s.requests;
    if mid.requests[id].Found? {
      b, s', asked := [Deliver(id)], Next(cfg, mid, Deliver(id)), 0;
      RunsOne(Requests(cfg), mid, Deliver(id));
      r := Ok(GenerateResponse(mid.requests[id].content, "cache", CACHE_SOURCE));
    } else if reply.Err? {
      b, s', asked := [GatewayReturns(id, reply)], Next(cfg, mid, GatewayReturns(id, reply)), 1;
      RunsOne(Requests(cfg), mid, GatewayReturns(id, reply));
      r := Err(GatewayFailed(reply.error));
    } else {
      b, s' := ReplyRuns(cfg, mid, id, reply.value, fault);
      r, asked := Ok(GenerateResponse(reply.value.content, reply.value.model, LLM_SOURCE)), 1;
    }
    RunsChain(Requests(cfg), s, a, mid, b, s');
    steps := a + b;
  }

  lemma StoredOnlyIfOk(cfg: Cache.CacheConfig, ks: Keyspace, prompt: Text, content: Text, now: nat)
    ensures Cache.Stored(ks, cfg, prompt, content, now).1.Err? ==> Cache.Stored(ks, cfg, prompt, content, now).0 == ks
  {
    hide Normalize, Json.CachePayload;
  }
}
