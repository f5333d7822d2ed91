/** The whole service: rate limiter, cache and gateways of all API processes on one store, interleaved. */
module EndToEnd {
  import opened Prelude
  import opened Texts
  import opened Keys
  import opened Redis
  import opened Normalization
  import opened GatewaySpec
  import Limiter = RateLimiter
  import Properties = RateLimiterProperties
  import Workers = RateLimiterWorkers
  import Cache = SemanticCache
  import Route = GenerateRoute
  import Gateways = GatewayConcurrent

  datatype Setup = Setup(limiter: Workers.Setup, cache: Cache.CacheConfig, gateway: Config)

  /** `gateways` has one gateway per process; `tickets` maps each request to the finished check that let it
      in; `started` lists, for every provider call ever started, the request it was made for. */
  datatype Api = Api(
    limiter: Workers.Sys, route: Route.Sys, gateways: seq<Gateways.Sys>, tickets: map<nat, nat>, started: seq<nat>)

  datatype Step =
    | Limit(limit: Workers.Step)
    | Enter(check: nat, id: nat, prompt: Text)
    | Look(g: nat, id: nat, raises: bool)
    | Serve(serve: Route.Step)
    | Return(g: nat, id: nat, result: Result<LLMResponse, Fault>)
    | Wake(g: nat, id: nat)
    | Abort(g: nat, id: nat)
    | Outside(key: string, entry: Option<Entry>)  // other users of the store; eviction of a cache entry
    | Tick(d: nat)
    | Pass(g: nat, time: Duration)                // the gateways' clock is not the store's

  /** `clocks` are the processes' own clocks. */
  function Init(setup: Setup, now: nat, clocks: seq<real>): Api {
    Api(Workers.Sys(map[], now, map[], [], []), Route.Sys(map[], now, map[], {}, [], [], {}, [], [], [], 0),
        seq(|clocks|, g requires 0 <= g < |clocks| => Gateways.Init(setup.gateway, clocks[g])), map[], [])
  }

  function ClocksOf(s: Api): seq<real> {
    seq(|s.gateways|, g requires 0 <= g < |s.gateways| => s.gateways[g].now)
  }

  predicate LetIn(setup: Setup, f: Workers.Finished) {
    Limiter.Judge(setup.limiter.limits, Limiter.Clock(f.readAt), f.minuteCount, f.hourCount).allowed
  }

  /** The endpoint's steps that concern no other part; a waiting request is cancelled together with its call. */
  predicate Served(serve: Route.Step) {
    serve.Deliver? || serve.Land? || serve.Finish? || serve.Cancel?
  }

  /** The step of one gateway that `step` is, if any. */
  function GatewayStep(step: Step): Option<(nat, Gateways.Step)> {
    match step
    case Look(g, id, _) => Some((g, Gateways.Arrive(id)))
    case Return(g, id, result) => Some((g, Gateways.Return(id, result)))
    case Wake(g, id) => Some((g, Gateways.Wake(id)))
    case Abort(g, id) => Some((g, Gateways.Abort(id)))
    case Pass(g, d) => Some((g, Gateways.Tick(d)))
    case _ => None
  }

  ghost predicate Enabled(setup: Setup, s: Api, step: Step) {
    && (GatewayStep(step).Some? ==>
          var (g, gatewayStep) := GatewayStep(step).value;
          && g < |s.gateways| && Gateways.Ready(setup.gateway, s.gateways[g])
          && Gateways.Enabled(s.gateways[g], gatewayStep))
    && match step
       case Limit(limit) =>
         && (limit.ReadClock? || limit.HitMinute? || limit.HitHour? || limit.Drop?)
         && Workers.Enabled(setup.limiter, s.limiter, limit)
       case Enter(check, id, prompt) =>
         && check < |s.limiter.finished| && LetIn(setup, s.limiter.finished[check])
         && check !in s.tickets.Values && Route.Enabled(s.route, Route.Begin(id, prompt))
       case Look(_, id, raises) => Route.Enabled(s.route, Route.Look(id, raises))
       case Serve(serve) =>
         && Served(serve) && Route.Enabled(s.route, serve)
         && (serve.Cancel? ==> !s.route.requests[serve.id].Asking?)
       case Return(_, id, result) => Route.Enabled(s.route, Route.GatewayReturns(id, Ended(result)))
       case Abort(_, id) => Route.Enabled(s.route, Route.Cancel(id))
       case Outside(key, entry) =>
         && (forall w, u, b :: key != RateLimitKey(w, u, b))
         && (entry.Some? ==> forall h :: key != SemanticCacheKey(h))
       case Wake(_, _) => true
       case Tick(_) => true
       case Pass(_, _) => true
  }

  function OutsideStep(key: string, entry: Option<Entry>): Route.Step {
    if entry.Some? then Route.ForeignWrite(key, entry.value) else Route.Vanish(key)
  }

  /** The gateways after a step of one of them. */
  function Stepped(setup: Setup, s: Api, g: nat, step: Gateways.Step): seq<Gateways.Sys>
    requires g < |s.gateways| && Gateways.Ready(setup.gateway, s.gateways[g]) && Gateways.Enabled(s.gateways[g], step)
  {
    s.gateways[g := Gateways.Next(setup.gateway, s.gateways[g], step)]
  }

  function Next(setup: Setup, s: Api, step: Step): Api
    requires Enabled(setup, s, step)
  {
    match step
    case Limit(limit) =>
      var limiter := Workers.Next(s.limiter, limit);
      s.(limiter := limiter, route := s.route.(ks := limiter.ks))
    case Enter(check, id, prompt) =>
      s.(route := Route.Next(setup.cache, s.route, Route.Begin(id, prompt)), tickets := s.tickets[id := check])
    case Look(g, id, raises) =>
      var route := Route.Next(setup.cache, s.route, Route.Look(id, raises));
      if route.requests[id].Asking? then
        s.(route := route, gateways := Stepped(setup, s, g, Gateways.Arrive(id)), started := s.started + [id])
      else s.(route := route)
    case Serve(serve) =>
      var route := Route.Next(setup.cache, s.route, serve);
      s.(route := route, limiter := s.limiter.(ks := route.ks))
    case Return(g, id, result) =>
      var gateways := Stepped(setup, s, g, Gateways.Return(id, result));
      if id !in gateways[g].flights then
        s.(gateways := gateways, route := Route.Next(setup.cache, s.route, Route.GatewayReturns(id, Ended(result))))
      else if gateways[g].flights[id].phase.Attempting? then
        s.(gateways := gateways, started := s.started + [id])
      else s.(gateways := gateways)
    case Wake(g, id) => s.(gateways := Stepped(setup, s, g, Gateways.Wake(id)), started := s.started + [id])
    case Abort(g, id) =>
      s.(gateways := Stepped(setup, s, g, Gateways.Abort(id)),
         route := Route.Next(setup.cache, s.route, Route.Cancel(id)))
    case Outside(key, entry) =>
      s.(limiter := Workers.Next(s.limiter, Workers.ForeignWrite(key, entry)),
         route := Route.Next(setup.cache, s.route, OutsideStep(key, entry)))
    case Tick(d) =>
      s.(limiter := Workers.Next(s.limiter, Workers.Tick(d)),
         route := Route.Next(setup.cache, s.route, Route.Tick(d)))
    case Pass(g, d) => s.(gateways := Stepped(setup, s, g, Gateways.Tick(d)))
  }

  // ---------------------------------------------------------------------------
  // Each part lives as it would alone
  // ---------------------------------------------------------------------------

  ghost predicate OneStore(s: Api) {
    s.limiter.ks == s.route.ks && s.limiter.now == s.route.now
  }

  lemma KeysApart(h: string)
    ensures forall w, u, b :: SemanticCacheKey(h) != RateLimitKey(w, u, b)
  {
    hide SemanticCacheKey, RateLimitKey;
    forall w, u, b
      ensures SemanticCacheKey(h) != RateLimitKey(w, u, b)
    {
      FamiliesDisjoint(w, u, b, h, "", "");
      var keys := [RateLimitKey(w, u, b), SemanticCacheKey(h), SessionMemoryKey(""), DocumentKey("")];
      assert keys[0] != keys[1];
    }
  }

  lemma RateKeysApart(w: Window, u: string, b: nat)
    ensures forall h :: RateLimitKey(w, u, b) != SemanticCacheKey(h)
  {
    forall h
      ensures RateLimitKey(w, u, b) != SemanticCacheKey(h)
    {
      KeysApart(h);
    }
  }

  /** A served request changes at most one cache entry. */
  lemma ServeWritesCache(setup: Setup, route: Route.Sys, serve: Route.Step) returns (h: string, entry: Entry)
    requires Route.Enabled(route, serve) && Served(serve)
    ensures var ks := Route.Next(setup.cache, route, serve).ks;
            ks == route.ks || ks == route.ks[SemanticCacheKey(h) := entry]
    ensures Route.Next(setup.cache, route, serve).now == route.now
  {
    hide Cache.Lookup, Cache.Stored;
    h, entry := "", Entry(Counter(0), None);
    if serve.Land? {
      var k := route.replies[serve.reply];
      var r := Cache.Stored(route.ks, setup.cache, k.prompt, k.content, route.now);
      if r.1.Ok? {
        Route.StoreLeaves(setup.cache, route.ks, k.prompt, k.content, route.now);
        h := setup.cache.hash(Normalize(setup.cache.fold, k.prompt));
        entry := r.0[SemanticCacheKey(h)];
      }
    }
  }

  /** A check changes at most one rate-limit counter. */
  lemma LimitWritesCounter(limiter: Workers.Sys, setup: Setup, limit: Workers.Step) returns (key: string, entry: Entry)
    requires Workers.Enabled(setup.limiter, limiter, limit)
    requires limit.ReadClock? || limit.HitMinute? || limit.HitHour? || limit.Drop?
    ensures forall h :: key != SemanticCacheKey(h)
    ensures var next := Workers.Next(limiter, limit);
            next.now == limiter.now && (next.ks == limiter.ks || next.ks == limiter.ks[key := entry])
  {
    hide SemanticCacheKey, RateLimitKey, Limiter.Bucket;
    var w := if limit.HitHour? then Hour else Minute;
    key := RateLimitKey(w, "", 0);
    entry := Entry(Counter(0), None);
    RateKeysApart(w, "", 0);
    if limit.HitMinute? || limit.HitHour? {
      var k := limiter.workers[limit.id];
      key := RateLimitKey(w, k.user, Limiter.Bucket(w, k.readAt));
      RateKeysApart(w, k.user, Limiter.Bucket(w, k.readAt));
      var ks := Limiter.Hit(limiter.ks, w, k.user, k.readAt, limiter.now).0;
      if key in ks {
        entry := ks[key];
      }
    }
  }

  lemma LimiterLives(setup: Setup, s: Api, step: Step)
    requires Limiter.ValidLimits(setup.limiter.limits) && OneStore(s) && Enabled(setup, s, step)
    requires Workers.Inv(setup.limiter, s.limiter)
    ensures Workers.Inv(setup.limiter, Next(setup, s, step).limiter)
  {
    hide Workers.Inv, Route.Next, Stepped, SemanticCacheKey, RateLimitKey, Workers.Next;
    match step {
      case Limit(limit) =>
        Workers.StepKeepsInv(setup.limiter, s.limiter, limit);
      case Serve(serve) =>
        var h, entry := ServeWritesCache(setup, s.route, serve);
        KeysApart(h);
        var write := Workers.ForeignWrite(SemanticCacheKey(h), Some(entry));
        Workers.StepKeepsInv(setup.limiter, s.limiter, write);
        WriteIs(s.limiter, SemanticCacheKey(h), entry);
      case Outside(key, entry) =>
        Workers.StepKeepsInv(setup.limiter, s.limiter, Workers.ForeignWrite(key, entry));
      case Tick(d) =>
        Workers.StepKeepsInv(setup.limiter, s.limiter, Workers.Tick(d));
      case _ =>
    }
  }

  lemma WriteIs(limiter: Workers.Sys, key: string, entry: Entry)
    ensures Workers.Next(limiter, Workers.ForeignWrite(key, Some(entry))) == limiter.(ks := limiter.ks[key := entry])
  {
  }

  /** What the endpoint sees of a step. */
  function RouteStep(step: Step, ends: bool): Option<Route.Step> {
    match step
    case Enter(_, id, prompt) => Some(Route.Begin(id, prompt))
    case Look(_, id, raises) => Some(Route.Look(id, raises))
    case Serve(serve) => Some(serve)
    case Return(_, id, result) => if ends then Some(Route.GatewayReturns(id, Ended(result))) else None
    case Abort(_, id) => Some(Route.Cancel(id))
    case Outside(key, entry) => Some(OutsideStep(key, entry))
    case Tick(d) => Some(Route.Tick(d))
    case _ => None
  }

  lemma RouteSees(setup: Setup, s: Api, step: Step) returns (seen: Option<Route.Step>)
    requires OneStore(s) && Enabled(setup, s, step)
    ensures seen.Some? ==> Route.Enabled(s.route, seen.value)
    ensures Next(setup, s, step).route ==
            if seen.Some? then Route.Next(setup.cache, s.route, seen.value) else s.route
    ensures step.Limit? ==> seen.None? || seen.value.ForeignWrite?
    ensures !step.Limit? ==> seen == RouteStep(step, seen.Some?)
  {
    hide Workers.Next, Gateways.Next, SemanticCacheKey, RateLimitKey, Route.Next;
    if step.Limit? {
      var key, entry := LimitWritesCounter(s.limiter, setup, step.limit);
      var write := Route.ForeignWrite(key, entry);
      RouteWriteIs(setup, s.route, key, entry);
      seen := if Workers.Next(s.limiter, step.limit).ks == s.limiter.ks then None else Some(write);
    } else if step.Return? {
      var gateways := Stepped(setup, s, step.g, Gateways.Return(step.id, step.result));
      seen := RouteStep(step, step.id !in gateways[step.g].flights);
    } else {
      seen := RouteStep(step, true);
    }
  }

  lemma RouteWriteIs(setup: Setup, route: Route.Sys, key: string, entry: Entry)
    requires forall h :: key != SemanticCacheKey(h)
    ensures Route.Enabled(route, Route.ForeignWrite(key, entry))
    ensures Route.Next(setup.cache, route, Route.ForeignWrite(key, entry)) == route.(ks := route.ks[key := entry])
  {
  }

  lemma RouteLives(setup: Setup, s: Api, step: Step)
    requires OneStore(s) && Enabled(setup, s, step) && Route.Inv(setup.cache, s.route)
    ensures Route.Inv(setup.cache, Next(setup, s, step).route)
  {
    hide Next, Enabled, Route.Next, Route.CacheInv, Route.BookInv, Route.AnswersInv;
    var seen := RouteSees(setup, s, step);
    if seen.Some? {
      Route.StepKeepsCache(setup.cache, s.route, seen.value);
      Route.StepKeepsBook(setup.cache, s.route, seen.value);
      Route.StepKeepsAnswers(setup.cache, s.route, seen.value);
    }
  }

  ghost predicate GatewaysInv(setup: Setup, s: Api) {
    forall g | 0 <= g < |s.gateways| :: Gateways.Inv(setup.gateway, s.gateways[g])
  }

  lemma GatewaysLive(setup: Setup, s: Api, step: Step)
    requires Enabled(setup, s, step) && GatewaysInv(setup, s)
    ensures GatewaysInv(setup, Next(setup, s, step))
  {
    hide Gateways.Inv, Gateways.Next, Gateways.Ready, Workers.Next, Route.Next;
    if GatewayStep(step).Some? {
      var (g, gatewayStep) := GatewayStep(step).value;
      Gateways.StepKeepsInv(setup.gateway, s.gateways[g], gatewayStep);
    }
  }

  lemma StoreStaysOne(setup: Setup, s: Api, step: Step)
    requires OneStore(s) && Enabled(setup, s, step)
    ensures OneStore(Next(setup, s, step))
  {
    hide Cache.Lookup, Cache.Stored, Limiter.Hit, Stepped, SemanticCacheKey, RateLimitKey, Limiter.Bucket;
  }

  // ---------------------------------------------------------------------------
  // What holds the parts together
  // ---------------------------------------------------------------------------

  /** Every request that ever began used up one admitted check of its own. */
  ghost predicate Ticketed(setup: Setup, s: Api) {
    && (forall id :: id in s.tickets <==> id in s.route.used)
    && (forall id | id in s.tickets ::
          s.tickets[id] < |s.limiter.finished| && LetIn(setup, s.limiter.finished[s.tickets[id]]))
    && (forall id, id' | id in s.tickets && id' in s.tickets && id != id' :: s.tickets[id] != s.tickets[id'])
  }

  /** A call in flight is that of a request which asked, is still waiting, and has no other call. */
  ghost predicate Underway(s: Api) {
    && (forall g, id | 0 <= g < |s.gateways| && id in s.gateways[g].flights ::
          id in s.route.asked && id in s.route.requests && s.route.requests[id].Asking?)
    && (forall g, g', id | 0 <= g < g' < |s.gateways| && id in s.gateways[g].flights ::
          id !in s.gateways[g'].flights)
  }

  ghost predicate HasCall(s: Api, id: nat) {
    exists g :: 0 <= g < |s.gateways| && id in s.gateways[g].flights
  }

  /** A request that waits for the gateway has a call to wait for. */
  ghost predicate Attended(s: Api) {
    forall id | id in s.route.requests && s.route.requests[id].Asking? :: HasCall(s, id)
  }

  function Tries(s: Api, id: nat): nat {
    multiset(s.started)[id]
  }

  function MaxTries(cfg: Config): nat
    requires ValidConfig(cfg)
  {
    |cfg.providers| * (cfg.policy.maxRetries + 1)
  }

  /** How many provider calls a flight can have made at most. */
  function Progress(cfg: Config, f: Gateways.Flight): nat
    requires ValidConfig(cfg)
  {
    f.index * (cfg.policy.maxRetries + 1) + f.attempt + 1
  }

  ghost predicate Budgeted(setup: Setup, s: Api)
    requires ValidConfig(setup.gateway)
  {
    && (forall id | id !in s.route.asked :: Tries(s, id) == 0)
    && (forall id :: Tries(s, id) <= MaxTries(setup.gateway))
    && (forall g, id | 0 <= g < |s.gateways| && id in s.gateways[g].flights ::
          Tries(s, id) <= Progress(setup.gateway, s.gateways[g].flights[id]))
  }

  lemma FinishedGrows(setup: Setup, s: Api, step: Step)
    requires Enabled(setup, s, step)
    ensures s.limiter.finished <= Next(setup, s, step).limiter.finished
  {
    hide Route.Next, Limiter.Hit, Stepped, RateLimitKey, Limiter.Bucket;
  }

  lemma UsedGrows(setup: Setup, s: Api, step: Step)
    requires Enabled(setup, s, step)
    ensures var s' := Next(setup, s, step);
            if step.Enter? then
              step.id !in s.route.used && s'.route.used == s.route.used + {step.id} &&
              s'.tickets == s.tickets[step.id := step.check]
            else s'.route.used == s.route.used && s'.tickets == s.tickets
  {
    hide Cache.Lookup, Cache.Stored, Workers.Next, Stepped, SemanticCacheKey, RateLimitKey;
  }

  lemma EnterChecks(setup: Setup, s: Api, step: Step)
    requires Enabled(setup, s, step) && step.Enter?
    ensures step.check !in s.tickets.Values && step.check < |s.limiter.finished|
    ensures LetIn(setup, s.limiter.finished[step.check])
  {
  }

  lemma TicketsKept(setup: Setup, s: Api, step: Step)
    requires Enabled(setup, s, step) && Ticketed(setup, s)
    ensures Ticketed(setup, Next(setup, s, step))
  {
    hide Next, Enabled, LetIn;
    FinishedGrows(setup, s, step);
    UsedGrows(setup, s, step);
    if step.Enter? {
      EnterChecks(setup, s, step);
    }
    assert forall id | id in s.tickets :: s.tickets[id] in s.tickets.Values;
  }

  /** The request a step of the endpoint is about. */
  function Subject(step: Route.Step): Option<nat> {
    match step
    case Begin(id, _) => Some(id)
    case Look(id, _) => Some(id)
    case Deliver(id) => Some(id)
    case GatewayReturns(id, _) => Some(id)
    case Finish(id) => Some(id)
    case Cancel(id) => Some(id)
    case _ => None
  }

  /** The request a step is about, as far as the endpoint is concerned. */
  predicate Concerns(step: Step, id: nat) {
    match step
    case Enter(_, i, _) => i == id
    case Look(_, i, _) => i == id
    case Serve(serve) => Subject(serve) == Some(id)
    case Return(_, i, _) => i == id
    case Abort(_, i) => i == id
    case _ => false
  }

  lemma OthersUntouched(setup: Setup, s: Api, step: Step, id: nat)
    requires OneStore(s) && Enabled(setup, s, step) && !Concerns(step, id)
    ensures var s' := Next(setup, s, step);
            && (id in s'.route.requests <==> id in s.route.requests)
            && (id in s.route.requests ==> s'.route.requests[id] == s.route.requests[id])
  {
    var seen := RouteSees(setup, s, step);
    hide Next, Enabled, OneStore;
    if seen.Some? {
      RouteLeaves(setup.cache, s.route, seen.value, id);
    }
  }

  lemma RouteLeaves(cfg: Cache.CacheConfig, route: Route.Sys, step: Route.Step, id: nat)
    requires Route.Enabled(route, step) && Subject(step) != Some(id)
    ensures var requests := Route.Next(cfg, route, step).requests;
            (id in requests <==> id in route.requests) && (id in route.requests ==> requests[id] == route.requests[id])
  {
    hide Cache.Lookup, Cache.Stored, SemanticCacheKey;
  }

  lemma AskedGrows(setup: Setup, s: Api, step: Step)
    requires Enabled(setup, s, step)
    ensures var s' := Next(setup, s, step);
            s'.route.asked == s.route.asked ||
            (step.Look? && s'.route.asked == s.route.asked + [step.id] && s'.route.requests[step.id].Asking?)
    ensures step.Look? ==>
              var route := Next(setup, s, step).route;
              step.id in route.requests &&
              (route.requests[step.id].Asking? ==> route.asked == s.route.asked + [step.id])
  {
    hide Cache.Lookup, Cache.Stored, Workers.Next, Stepped, SemanticCacheKey, RateLimitKey;
  }

  /** What one gateway step does to the flights: it concerns one call, and a call appears only by arriving. */
  lemma FlightsChange(cfg: Config, s: Gateways.Sys, step: Gateways.Step, id: nat)
    requires Gateways.Ready(cfg, s) && Gateways.Enabled(s, step)
    requires id in Gateways.Next(cfg, s, step).flights
    ensures step.Tick? || step.id != id ==>
              id in s.flights && Gateways.Next(cfg, s, step).flights[id] == s.flights[id]
    ensures !step.Arrive? ==> id in s.flights
    ensures !step.Abort? || step.id != id
  {
    hide Snapshot, RouterSpec.Select, Label, Others, FallsBack, Retryable;
  }

  /** A flight after the step was there before, the same unless the step is about it, or has just begun. */
  lemma FlightsCome(setup: Setup, s: Api, step: Step, g: nat, id: nat)
    requires Enabled(setup, s, step)
    requires g < |Next(setup, s, step).gateways| && id in Next(setup, s, step).gateways[g].flights
    ensures var s' := Next(setup, s, step);
            && g < |s.gateways|
            && (if id in s.gateways[g].flights then
                  || s'.gateways[g].flights[id] == s.gateways[g].flights[id]
                  || (step.Return? && step.g == g && step.id == id)
                  || (step.Wake? && step.g == g && step.id == id)
                else
                  && step.Look? && step.g == g && step.id == id && s'.started == s.started + [id]
                  && id in s'.route.requests && s'.route.requests[id].Asking?)
            && !(step.Abort? && step.g == g && step.id == id)
  {
    hide Route.Next, Workers.Next, Gateways.Next, Gateways.Ready, Ended;
    var s' := Next(setup, s, step);
    AskedGrows(setup, s, step);
    if s'.gateways[g] != s.gateways[g] {
      FlightsChange(setup.gateway, s.gateways[g], GatewayStep(step).value.1, id);
    } else if step.Abort? && step.g == g && step.id == id {
      FlightsChange(setup.gateway, s.gateways[g], GatewayStep(step).value.1, id);
    }
  }

  lemma UnderwayKept(setup: Setup, s: Api, step: Step)
    requires OneStore(s) && Enabled(setup, s, step) && Underway(s) && Route.BookInv(s.route)
    ensures Underway(Next(setup, s, step))
  {
    hide Route.Next, Workers.Next, Gateways.Next, Gateways.Ready, Ended;
    var s' := Next(setup, s, step);
    hide Next, Enabled;
    forall g, id | 0 <= g < |s'.gateways| && id in s'.gateways[g].flights
      ensures id in s'.route.asked && id in s'.route.requests && s'.route.requests[id].Asking?
      ensures id in s.gateways[g].flights || (step.Look? && step.id == id && step.g == g && id !in s.route.asked)
    {
      CallerWaits(setup, s, step, g, id);
    }
    forall g, g', id | 0 <= g < g' < |s'.gateways| && id in s'.gateways[g].flights
      ensures id !in s'.gateways[g'].flights
    {
      if id in s'.gateways[g'].flights {
        CallerWaits(setup, s, step, g, id);
        CallerWaits(setup, s, step, g', id);
        assert false;
      }
    }
  }

  /** Whoever has a call after the step is waiting for it. */
  lemma CallerWaits(setup: Setup, s: Api, step: Step, g: nat, id: nat)
    requires OneStore(s) && Enabled(setup, s, step) && Underway(s) && Route.BookInv(s.route)
    requires g < |Next(setup, s, step).gateways| && id in Next(setup, s, step).gateways[g].flights
    ensures var route := Next(setup, s, step).route;
            id in route.asked && id in route.requests && route.requests[id].Asking?
    ensures g < |s.gateways|
    ensures id in s.gateways[g].flights || (step.Look? && step.id == id && step.g == g && id !in s.route.asked)
  {
    hide Route.Next, Workers.Next, Gateways.Next, Gateways.Ready, Ended;
    var s' := Next(setup, s, step);
    AskedGrows(setup, s, step);
    FlightsCome(setup, s, step, g, id);
    if !Concerns(step, id) {
      OthersUntouched(setup, s, step, id);
    } else if step.Return? {
      assert step.g == g && s'.route == s.route;
    } else {
      assert step.Look?;
    }
  }

  lemma FlightStays(cfg: Config, s: Gateways.Sys, step: Gateways.Step, id: nat)
    requires Gateways.Ready(cfg, s) && Gateways.Enabled(s, step) && id in s.flights
    ensures id in Gateways.Next(cfg, s, step).flights || ((step.Return? || step.Abort?) && step.id == id)
  {
    hide Snapshot, RouterSpec.Select, Label, Others, FallsBack, Retryable;
  }

  lemma CallStays(setup: Setup, s: Api, step: Step, g: nat, id: nat)
    requires Enabled(setup, s, step) && g < |s.gateways| && id in s.gateways[g].flights
    ensures var s' := Next(setup, s, step);
            && g < |s'.gateways|
            && (id in s'.gateways[g].flights || ((step.Return? || step.Abort?) && step.g == g && step.id == id))
  {
    hide Route.Next, Workers.Next, Gateways.Next, Gateways.Ready, Ended;
    if Next(setup, s, step).gateways[g] != s.gateways[g] {
      FlightStays(setup.gateway, s.gateways[g], GatewayStep(step).value.1, id);
    }
  }

  /** A step about a waiting request that leaves it waiting leaves it a call. */
  lemma StillAttended(setup: Setup, s: Api, step: Step, id: nat)
    requires Enabled(setup, s, step) && Concerns(step, id)
    requires id in Next(setup, s, step).route.requests && Next(setup, s, step).route.requests[id].Asking?
    ensures HasCall(Next(setup, s, step), id)
  {
    hide Cache.Lookup, Cache.Stored, Workers.Next, Gateways.Next, Gateways.Ready, SemanticCacheKey, RateLimitKey;
    var s' := Next(setup, s, step);
    if step.Look? {
      ArrivalProgress(setup.gateway, s.gateways[step.g], id);
      assert id in s'.gateways[step.g].flights;
    } else if step.Return? {
      assert id in s'.gateways[step.g].flights;
    }
  }

  lemma AttendedKept(setup: Setup, s: Api, step: Step)
    requires OneStore(s) && Enabled(setup, s, step) && Attended(s) && ValidConfig(setup.gateway)
    ensures Attended(Next(setup, s, step))
  {
    hide Next, Enabled, OneStore;
    var s' := Next(setup, s, step);
    forall id | id in s'.route.requests && s'.route.requests[id].Asking?
      ensures HasCall(s', id)
    {
      if Concerns(step, id) {
        StillAttended(setup, s, step, id);
      } else {
        OthersUntouched(setup, s, step, id);
        assert HasCall(s, id);
        var g :| 0 <= g < |s.gateways| && id in s.gateways[g].flights;
        CallStays(setup, s, step, g, id);
        assert id in s'.gateways[g].flights;
      }
    }
  }

  lemma ProgressBounded(cfg: Config, f: Gateways.Flight, now: real)
    requires ValidConfig(cfg) && Gateways.GoodFlight(cfg, f, now)
    ensures Progress(cfg, f) <= MaxTries(cfg)
  {
    WithinProduct(f.index, f.attempt, |cfg.providers|, cfg.policy.maxRetries + 1);
  }

  lemma WithinProduct(i: nat, k: nat, n: nat, r: nat)
    requires i < n && k < r
    ensures i * r + k + 1 <= n * r
  {
    assert n * r == i * r + r + (n - i - 1) * r;
    assert (n - i - 1) * r >= 0;
  }

  /** A call that goes on has come further by every provider call it starts. */
  lemma TurnAdvances(cfg: Config, s: Gateways.Sys, step: Gateways.Step)
    requires Gateways.Ready(cfg, s) && Gateways.Enabled(s, step) && (step.Return? || step.Wake?)
    requires step.id in s.flights && step.id in Gateways.Next(cfg, s, step).flights
    ensures var f' := Gateways.Next(cfg, s, step).flights[step.id];
            && Progress(cfg, f') >= Progress(cfg, s.flights[step.id]) + (if f'.phase.Attempting? then 1 else 0)
            && (step.Wake? ==> f'.phase.Attempting?)
  {
    hide Snapshot, RouterSpec.Select, Label, Others, FallsBack, Retryable;
    var f, r := s.flights[step.id], cfg.policy.maxRetries + 1;
    assert (f.index + 1) * r == f.index * r + r;
  }

  lemma ArrivalProgress(cfg: Config, s: Gateways.Sys, id: nat)
    requires Gateways.Ready(cfg, s) && id !in s.flights
    ensures var s' := Gateways.Next(cfg, s, Gateways.Arrive(id)); id in s'.flights && Progress(cfg, s'.flights[id]) == 1
  {
    hide Snapshot, RouterSpec.Select, Others;
  }

  lemma TurnStarts(setup: Setup, s: Api, step: Step)
    requires ValidConfig(setup.gateway) && Enabled(setup, s, step) && (step.Return? || step.Wake?)
    requires step.id in Next(setup, s, step).gateways[step.g].flights
    ensures var s', g, id := Next(setup, s, step), step.g, step.id;
            && id in s.gateways[g].flights
            && Progress(setup.gateway, s'.gateways[g].flights[id]) >=
               Progress(setup.gateway, s.gateways[g].flights[id]) + |s'.started| - |s.started|
  {
    hide Route.Next, Workers.Next, Gateways.Next, Gateways.Ready, Ended, Progress;
    TurnAdvances(setup.gateway, s.gateways[step.g], GatewayStep(step).value.1);
  }

  /** Provider calls are started only by calls in flight, and only within their progress. */
  lemma StartsProgress(setup: Setup, s: Api, step: Step, g: nat, id: nat)
    requires ValidConfig(setup.gateway) && Enabled(setup, s, step) && Budgeted(setup, s) && Underway(s)
    requires Route.BookInv(s.route)
    requires g < |Next(setup, s, step).gateways| && id in Next(setup, s, step).gateways[g].flights
    ensures var s' := Next(setup, s, step); Tries(s', id) <= Progress(setup.gateway, s'.gateways[g].flights[id])
  {
    hide Next, Enabled, Progress, MaxTries, Route.BookInv;
    var s' := Next(setup, s, step);
    StartedIs(setup, s, step);
    FlightsCome(setup, s, step, g, id);
    if id !in s.gateways[g].flights {
      NewProgress(setup, s, step);
      assert Tries(s, id) == 0;
      assert s'.started == s.started + [id];
      assert Tries(s', id) == 1;
    } else if (step.Return? || step.Wake?) && step.g == g && step.id == id {
      TurnStarts(setup, s, step);
      assert Tries(s', id) <= Tries(s, id) + |s'.started| - |s.started|;
    } else {
      if s'.started != s.started && step.id == id {
        Alone(s, g, if step.Look? then g else step.g, id);
        assert false;
      }
      assert Tries(s', id) == Tries(s, id);
    }
  }

  /** A call begins with a request that was looking until now. */
  lemma NewProgress(setup: Setup, s: Api, step: Step)
    requires ValidConfig(setup.gateway) && Enabled(setup, s, step) && Route.BookInv(s.route)
    requires step.Look? && step.id in Next(setup, s, step).gateways[step.g].flights
    ensures step.id !in s.route.asked
    ensures Progress(setup.gateway, Next(setup, s, step).gateways[step.g].flights[step.id]) == 1
  {
    hide Route.Next, Gateways.Next, Gateways.Ready, Progress;
    ArrivalProgress(setup.gateway, s.gateways[step.g], step.id);
  }

  lemma Alone(s: Api, g: nat, g': nat, id: nat)
    requires Underway(s) && g < |s.gateways| && g' < |s.gateways|
    requires id in s.gateways[g].flights && id in s.gateways[g'].flights
    ensures g == g' && id in s.route.asked && id in s.route.requests && s.route.requests[id].Asking?
  {
  }

  lemma StartedIs(setup: Setup, s: Api, step: Step)
    requires Enabled(setup, s, step)
    ensures var s' := Next(setup, s, step);
            s'.started == s.started ||
            ((step.Look? || step.Return? || step.Wake?) && s'.started == s.started + [step.id] &&
             step.g < |s'.gateways| && step.id in s'.gateways[step.g].flights)
    ensures step.Look? ==> step.id in s.route.requests && s.route.requests[step.id].Looking?
    ensures step.Return? || step.Wake? ==> step.g < |s.gateways| && step.id in s.gateways[step.g].flights
  {
    hide Route.Next, Workers.Next, Gateways.Next, Ended;
    if step.Look? {
      ArrivalProgress(setup.gateway, s.gateways[step.g], step.id);
    } else if step.Wake? {
      WakeStays(setup.gateway, s.gateways[step.g], step.id);
    }
  }

  lemma FlightsInBudget(setup: Setup, s: Api, step: Step)
    requires ValidConfig(setup.gateway) && Enabled(setup, s, step) && Budgeted(setup, s) && Underway(s)
    requires OneStore(s) && Route.BookInv(s.route) && GatewaysInv(setup, Next(setup, s, step))
    ensures var s' := Next(setup, s, step);
            forall g, id | 0 <= g < |s'.gateways| && id in s'.gateways[g].flights ::
              Tries(s', id) <= Progress(setup.gateway, s'.gateways[g].flights[id]) <= MaxTries(setup.gateway)
  {
    hide Next, Enabled, Budgeted, Underway, Route.BookInv, Progress, MaxTries, Tries;
    var s' := Next(setup, s, step);
    forall g, id | 0 <= g < |s'.gateways| && id in s'.gateways[g].flights
      ensures Tries(s', id) <= Progress(setup.gateway, s'.gateways[g].flights[id]) <= MaxTries(setup.gateway)
    {
      StartsProgress(setup, s, step, g, id);
      ProgressBounded(setup.gateway, s'.gateways[g].flights[id], s'.gateways[g].now);
    }
  }

  lemma BudgetKept(setup: Setup, s: Api, step: Step)
    requires ValidConfig(setup.gateway) && Enabled(setup, s, step) && Budgeted(setup, s) && Underway(s)
    requires OneStore(s) && Route.BookInv(s.route) && GatewaysInv(setup, Next(setup, s, step))
    ensures Budgeted(setup, Next(setup, s, step))
  {
    hide Next, Enabled, Route.BookInv, GatewaysInv, Progress, MaxTries;
    var s' := Next(setup, s, step);
    AskedGrows(setup, s, step);
    StartedIs(setup, s, step);
    UnderwayKept(setup, s, step);
    FlightsInBudget(setup, s, step);
    forall id
      ensures id !in s'.route.asked ==> Tries(s', id) == 0
      ensures Tries(s', id) <= MaxTries(setup.gateway)
    {
      if Tries(s', id) != Tries(s, id) {
        assert id == step.id;
      }
    }
  }

  lemma WakeStays(cfg: Config, s: Gateways.Sys, id: nat)
    requires Gateways.Ready(cfg, s) && Gateways.Enabled(s, Gateways.Wake(id))
    ensures id in Gateways.Next(cfg, s, Gateways.Wake(id)).flights
  {
  }

  // ---------------------------------------------------------------------------
  // Every reachable state
  // ---------------------------------------------------------------------------

  ghost predicate Inv(setup: Setup, s: Api) {
    && OneStore(s) && Workers.Inv(setup.limiter, s.limiter) && Route.Inv(setup.cache, s.route) && GatewaysInv(setup, s)
    && Ticketed(setup, s) && Underway(s) && Attended(s) && ValidConfig(setup.gateway) && Budgeted(setup, s)
  }

  ghost predicate ValidSetup(setup: Setup) {
    Limiter.ValidLimits(setup.limiter.limits) && ValidConfig(setup.gateway)
  }

  /** The limiter's, the cache's and every gateway's theorems hold in the composition, which adds that each
      request has its own admitted check, its own single gateway call, and its budget of provider calls. */
  lemma StepKeepsInv(setup: Setup, s: Api, step: Step)
    requires ValidSetup(setup) && Inv(setup, s) && Enabled(setup, s, step)
    ensures Inv(setup, Next(setup, s, step))
  {
    hide OneStore, Workers.Inv, GatewaysInv, Ticketed, Underway, Attended, Budgeted, Next, Enabled;
    hide Route.CacheInv, Route.BookInv, Route.AnswersInv;
    StoreStaysOne(setup, s, step);
    LimiterLives(setup, s, step);
    RouteLives(setup, s, step);
    GatewaysLive(setup, s, step);
    TicketsKept(setup, s, step);
    UnderwayKept(setup, s, step);
    AttendedKept(setup, s, step);
    BudgetKept(setup, s, step);
  }

  ghost predicate Execution(setup: Setup, states: seq<Api>, steps: seq<Step>) {
    && |states| == |steps| + 1
    && states[0] == Init(setup, states[0].limiter.now, ClocksOf(states[0]))
    && forall i | 0 <= i < |steps| ::
         Enabled(setup, states[i], steps[i]) && states[i + 1] == Next(setup, states[i], steps[i])
  }

  lemma InitIsFine(setup: Setup, now: nat, clocks: seq<real>)
    requires ValidSetup(setup)
    ensures Inv(setup, Init(setup, now, clocks))
  {
    hide GaugeOf, Normalize, Progress, MaxTries, SemanticCacheKey, RateLimitKey, Gateways.Inv;
    var s := Init(setup, now, clocks);
    forall g | 0 <= g < |clocks|
      ensures Gateways.Inv(setup.gateway, s.gateways[g])
    {
      Gateways.Conservation(setup.gateway, [s.gateways[g]], [], 0);
    }
    var idle := Workers.Sys(map[], now, map[], [], []);
    Workers.Reachable(setup.limiter, [idle], [], 0);
    Route.EmptyIsFine(setup.cache, s.route);
  }

  lemma {:induction false} Reachable(setup: Setup, states: seq<Api>, steps: seq<Step>, i: nat)
    requires ValidSetup(setup) && Execution(setup, states, steps) && i < |states|
    ensures Inv(setup, states[i])
  {
    hide Next, Inv, Enabled, Init;
    if i == 0 {
      InitIsFine(setup, states[0].limiter.now, ClocksOf(states[0]));
    } else {
      Reachable(setup, states, steps, i - 1);
      StepKeepsInv(setup, states[i - 1], steps[i - 1]);
    }
  }

  /** A request that waits for the gateway has exactly one call in flight, in one process. */
  lemma WaitingHasItsCall(setup: Setup, s: Api, id: nat) returns (g: nat)
    requires Inv(setup, s) && id in s.route.requests && s.route.requests[id].Asking?
    ensures g < |s.gateways| && id in s.gateways[g].flights
    ensures forall g' | 0 <= g' < |s.gateways| && id in s.gateways[g'].flights :: g' == g
  {
    hide OneStore, Workers.Inv, Route.Inv, GatewaysInv, Ticketed, Budgeted;
    assert HasCall(s, id);
    g :| 0 <= g < |s.gateways| && id in s.gateways[g].flights;
  }

  /** What call `id` of process `g` can do next: its attempt returns, whatever the result, or its backoff
      ends; and it can be aborted. */
  ghost predicate CallMoves(setup: Setup, s: Api, g: nat, id: nat, result: Result<LLMResponse, Fault>)
    requires g < |s.gateways| && id in s.gateways[g].flights
  {
    && (if s.gateways[g].flights[id].phase.Attempting? then Enabled(setup, s, Return(g, id, result))
        else Enabled(setup, s, Wake(g, id)))
    && Enabled(setup, s, Abort(g, id))
  }

  lemma CallIsFree(setup: Setup, s: Api, g: nat, id: nat, result: Result<LLMResponse, Fault>)
    requires Inv(setup, s) && g < |s.gateways| && id in s.gateways[g].flights
    ensures CallMoves(setup, s, g, id, result)
  {
    hide Workers.Inv, Route.Inv, Ticketed, Budgeted, Attended, Gateways.Conserved, Gateways.Published, Gateways.Ready;
    assert Gateways.Inv(setup.gateway, s.gateways[g]);
  }

  lemma LookIsFree(setup: Setup, s: Api, g: nat, id: nat, raises: bool)
    requires Inv(setup, s) && g < |s.gateways| && id in s.route.requests && s.route.requests[id].Looking?
    ensures Enabled(setup, s, Look(g, id, raises))
  {
    hide Workers.Inv, Route.Inv, Ticketed, Budgeted, Attended, Gateways.Conserved, Gateways.Published, Gateways.Ready;
    assert Gateways.Inv(setup.gateway, s.gateways[g]);
  }

  /** No request gets stuck: in every phase it can move on, and be cancelled. `result` and `raises` are what
      the provider or the store comes back with, `g` is the process the request is served in. */
  lemma RequestIsNeverStuck(setup: Setup, s: Api, g: nat, id: nat, result: Result<LLMResponse, Fault>, raises: bool)
    requires Inv(setup, s) && g < |s.gateways| && id in s.route.requests
    ensures match s.route.requests[id]
            case Looking(_) => Enabled(setup, s, Look(g, id, raises)) && Enabled(setup, s, Serve(Route.Cancel(id)))
            case Found(_, _, _) =>
              Enabled(setup, s, Serve(Route.Deliver(id))) && Enabled(setup, s, Serve(Route.Cancel(id)))
            case Asking(_) =>
              exists h :: 0 <= h < |s.gateways| && id in s.gateways[h].flights && CallMoves(setup, s, h, id, result)
            case Storing(_, _) =>
              Enabled(setup, s, Serve(Route.Finish(id))) && Enabled(setup, s, Serve(Route.Cancel(id)))
  {
    hide Inv, CallMoves, Enabled;
    ServeIsFree(setup, s, id);
    if s.route.requests[id].Looking? {
      LookIsFree(setup, s, g, id, raises);
    } else if s.route.requests[id].Asking? {
      var h := WaitingHasItsCall(setup, s, id);
      CallIsFree(setup, s, h, id, result);
    }
  }

  lemma ServeIsFree(setup: Setup, s: Api, id: nat)
    requires id in s.route.requests
    ensures !s.route.requests[id].Asking? ==> Enabled(setup, s, Serve(Route.Cancel(id)))
    ensures s.route.requests[id].Found? ==> Enabled(setup, s, Serve(Route.Deliver(id)))
    ensures s.route.requests[id].Storing? ==> Enabled(setup, s, Serve(Route.Finish(id)))
  {
    hide Workers.Enabled, Gateways.Ready, LetIn, SemanticCacheKey, RateLimitKey;
  }

  /** The rest of the service is as free as on its own: a worker's step, a write on its way to the store, and
      a request's entry on an admitted check nobody used yet. */
  lemma NothingElseIsBlocked(setup: Setup, s: Api, limit: Workers.Step, reply: nat, check: nat, id: nat, prompt: Text)
    ensures (limit.ReadClock? || limit.HitMinute? || limit.HitHour? || limit.Drop?) ==>
              (Enabled(setup, s, Limit(limit)) <==> Workers.Enabled(setup.limiter, s.limiter, limit))
    ensures Enabled(setup, s, Serve(Route.Land(reply))) <==> Route.Enabled(s.route, Route.Land(reply))
    ensures Enabled(setup, s, Enter(check, id, prompt)) <==>
            && check < |s.limiter.finished| && LetIn(setup, s.limiter.finished[check])
            && (forall other | other in s.tickets :: s.tickets[other] != check)
            && id !in s.route.used && Route.ValidPrompt(prompt)
  {
    hide Workers.Enabled, LetIn;
  }

  // ---------------------------------------------------------------------------
  // What a rate limit means for the providers
  // ---------------------------------------------------------------------------

  /** The requests let in by checks of `user` whose clock read fell in the bucket. */
  ghost function RequestsOf(s: Api, w: Window, user: string, b: nat): set<nat> {
    set id | id in s.tickets && s.tickets[id] < |s.limiter.finished| &&
             s.limiter.finished[s.tickets[id]].user == user &&
             Limiter.Bucket(w, s.limiter.finished[s.tickets[id]].readAt) == b
  }

  /** Entries of `started` that are for one of `ids`. */
  ghost function StartedFor(started: seq<nat>, ids: set<nat>): nat {
    if started == [] then 0
    else StartedFor(started[..|started| - 1], ids) + if started[|started| - 1] in ids then 1 else 0
  }

  lemma {:induction false} StartedSplits(started: seq<nat>, ids: set<nat>, id: nat)
    requires id in ids
    ensures StartedFor(started, ids) == StartedFor(started, ids - {id}) + multiset(started)[id]
  {
    if started != [] {
      var init := started[..|started| - 1];
      assert started == init + [started[|started| - 1]];
      StartedSplits(init, ids, id);
    }
  }

  lemma {:induction false} StartedForNone(started: seq<nat>)
    ensures StartedFor(started, {}) == 0
  {
    if started != [] {
      StartedForNone(started[..|started| - 1]);
    }
  }

  lemma OneMoreShare(k: nat, each: nat)
    ensures (k + 1) * each == k * each + each
  {
  }

  lemma {:induction false} StartedWithin(started: seq<nat>, ids: set<nat>, each: nat)
    requires forall id | id in ids :: multiset(started)[id] <= each
    ensures StartedFor(started, ids) <= |ids| * each
  {
    if id :| id in ids {
      StartedSplits(started, ids, id);
      StartedWithin(started, ids - {id}, each);
      OneMoreShare(|ids - {id}|, each);
    } else {
      StartedForNone(started);
    }
  }

  ghost function AdmittedChecks(
    setup: Setup, finished: seq<Workers.Finished>, w: Window, user: string, b: nat): set<nat> {
    set k: nat | k < |finished| && Workers.AdmittedHere(setup.limiter.limits, finished[k], w, user, b)
  }

  lemma {:induction false} AdmittedChecksCounted(
    setup: Setup, finished: seq<Workers.Finished>, w: Window, user: string, b: nat)
    ensures |AdmittedChecks(setup, finished, w, user, b)| ==
            Workers.AdmittedFor(setup.limiter.limits, finished, w, user, b)
  {
    hide Workers.AdmittedHere, AdmittedChecks;
    if finished == [] {
      NoChecks(setup, w, user, b);
    } else {
      var n := |finished| - 1;
      AdmittedChecksCounted(setup, finished[..n], w, user, b);
      LastCheck(setup, finished, w, user, b);
    }
  }

  lemma NoChecks(setup: Setup, w: Window, user: string, b: nat)
    ensures AdmittedChecks(setup, [], w, user, b) == {}
  {
  }

  lemma LastCheck(setup: Setup, finished: seq<Workers.Finished>, w: Window, user: string, b: nat)
    requires finished != []
    ensures var n := |finished| - 1;
            |AdmittedChecks(setup, finished, w, user, b)| ==
            |AdmittedChecks(setup, finished[..n], w, user, b)| +
            if Workers.AdmittedHere(setup.limiter.limits, finished[n], w, user, b) then 1 else 0
  {
    hide Workers.AdmittedHere;
    var n := |finished| - 1;
    var before, after := AdmittedChecks(setup, finished[..n], w, user, b), AdmittedChecks(setup, finished, w, user, b);
    forall k
      ensures k in after <==>
              k in before || (k == n && Workers.AdmittedHere(setup.limiter.limits, finished[n], w, user, b))
    {
      assert 0 <= k < n ==> finished[..n][k] == finished[k];
    }
    if Workers.AdmittedHere(setup.limiter.limits, finished[n], w, user, b) {
      assert after == before + {n};
    } else {
      assert after == before;
    }
  }

  lemma {:induction false} InjectionIsNoLarger(ids: set<nat>, f: map<nat, nat>, into: set<nat>)
    requires forall id | id in ids :: id in f && f[id] in into
    requires forall i, j | i in ids && j in ids && i != j :: f[i] != f[j]
    ensures |ids| <= |into|
  {
    if id :| id in ids {
      InjectionIsNoLarger(ids - {id}, f, into - {f[id]});
    }
  }

  /** No more requests run on a caller's checks of one bucket than the limiter admitted. */
  lemma RequestsAreAdmitted(setup: Setup, s: Api, w: Window, user: string, b: nat)
    requires Ticketed(setup, s)
    ensures |RequestsOf(s, w, user, b)| <= Workers.AdmittedFor(setup.limiter.limits, s.limiter.finished, w, user, b)
  {
    hide Limiter.Bucket, Limiter.Judge;
    AdmittedChecksCounted(setup, s.limiter.finished, w, user, b);
    InjectionIsNoLarger(RequestsOf(s, w, user, b), s.tickets,
                        AdmittedChecks(setup, s.limiter.finished, w, user, b));
  }

  lemma ProductBound(a: nat, b: nat, c: nat)
    requires a <= b
    ensures a * c <= b * c
  {
    assert b * c == a * c + (b - a) * c;
  }

  lemma AdmittedStartsAtMost(setup: Setup, s: Api, w: Window, user: string, b: nat, limit: nat)
    requires Inv(setup, s)
    requires Workers.AdmittedFor(setup.limiter.limits, s.limiter.finished, w, user, b) <= limit
    ensures StartedFor(s.started, RequestsOf(s, w, user, b)) <= limit * MaxTries(setup.gateway)
  {
    hide OneStore, Workers.Inv, Route.Inv, GatewaysInv, Underway, Ticketed, MaxTries, RequestsOf, StartedFor;
    hide Workers.AdmittedFor;
    RequestsAreAdmitted(setup, s, w, user, b);
    var ids := RequestsOf(s, w, user, b);
    assert forall id :: multiset(s.started)[id] == Tries(s, id);
    StartedWithin(s.started, ids, MaxTries(setup.gateway));
    ProductBound(|ids|, limit, MaxTries(setup.gateway));
  }

  /** In every interleaving of all processes, the checks of one caller in one bucket set off at most
      limit * (1 + ceil(lateness / window)) * n * (R + 1) provider calls. */
  lemma StartsAtMost(setup: Setup, states: seq<Api>, steps: seq<Step>, i: nat, w: Window, user: string, b: nat)
    requires ValidSetup(setup) && Execution(setup, states, steps) && i < |states|
    ensures var lives := 1 + Properties.CeilDiv(setup.limiter.Of(w).Slack(), 1000 * Limiter.Seconds(w));
            StartedFor(states[i].started, RequestsOf(states[i], w, user, b)) <=
            setup.limiter.limits.Of(w) * lives * MaxTries(setup.gateway)
    ensures setup.limiter.Of(w).InOwnBucket? ==>
              StartedFor(states[i].started, RequestsOf(states[i], w, user, b)) <=
              setup.limiter.limits.Of(w) * MaxTries(setup.gateway)
  {
    hide Inv, Execution, Properties.CeilDiv, RequestsOf, StartedFor, Workers.AdmittedFor, Limiter.Seconds, MaxTries;
    Reachable(setup, states, steps, i);
    var s, limit := states[i], setup.limiter.limits.Of(w);
    LimiterAdmits(setup, s, w, user, b);
    var lives := 1 + Properties.CeilDiv(setup.limiter.Of(w).Slack(), 1000 * Limiter.Seconds(w));
    assert limit * lives >= 0;
    AdmittedStartsAtMost(setup, s, w, user, b, limit * lives);
    if setup.limiter.Of(w).InOwnBucket? {
      AdmittedStartsAtMost(setup, s, w, user, b, limit);
    }
  }

  lemma LimiterAdmits(setup: Setup, s: Api, w: Window, user: string, b: nat)
    requires ValidSetup(setup) && Inv(setup, s)
    ensures var admitted, limit :=
              Workers.AdmittedFor(setup.limiter.limits, s.limiter.finished, w, user, b), setup.limiter.limits.Of(w);
            && admitted <= limit * (1 + Properties.CeilDiv(setup.limiter.Of(w).Slack(), 1000 * Limiter.Seconds(w)))
            && (setup.limiter.Of(w).InOwnBucket? ==> admitted <= limit)
  {
    hide Workers.Inv, OneStore, Route.Inv, GatewaysInv, Underway, Ticketed, Budgeted, Workers.AdmittedFor;
    hide Properties.CeilDiv;
    Workers.InvAdmits(setup.limiter, s.limiter, w, user, b);
  }

  /** With every increment landing in its own bucket, however late in it, the requests one caller gets
      admitted in a minute start at most minute-limit * n * (R + 1) provider calls. */
  lemma MinuteStartsAtMost(setup: Setup, states: seq<Api>, steps: seq<Step>, i: nat, user: string, b: nat)
    requires ValidSetup(setup) && Execution(setup, states, steps) && i < |states|
    requires setup.limiter.minute.InOwnBucket?
    ensures StartedFor(states[i].started, RequestsOf(states[i], Minute, user, b)) <=
            setup.limiter.limits.perMinute *
            (|setup.gateway.providers| * (setup.gateway.policy.maxRetries + 1))
  {
    hide Execution, StartedFor, RequestsOf;
    StartsAtMost(setup, states, steps, i, Minute, user, b);
  }
}
