/** Many calls in flight on one event loop: code between two awaits is one step. */
module GatewayConcurrent {
  import opened Prelude
  import opened RouterSpec
  import opened GatewaySpec

  datatype Phase = Attempting | BackingOff

  /** A call at one of its two awaits, on the `index`-th provider of its order. */
  datatype Flight = Flight(order: seq<Name>, index: nat, attempt: nat, startedAt: real, phase: Phase) {
    predicate At(p: Name) {
      index < |order| && order[index] == p
    }
  }

  /** `aborted` counts aborted calls by the provider they were at; `publishedAt` is the time of the latest
      gauge update. */
  datatype Sys = Sys(
    core: Core, flights: map<nat, Flight>, aborted: multiset<Name>, publishedAt: real, now: real)

  datatype Step =
    | Arrive(id: nat)
    | Return(id: nat, result: Result<LLMResponse, Fault>)
    | Wake(id: nat)
    | Abort(id: nat)  // cancellation, or an exception outside the provider-error family
    | Tick(d: Duration)

  function Init(cfg: Config, now: real): Sys {
    Sys(InitialCore(cfg, now), map[], multiset{}, now, now)
  }

  ghost predicate GoodFlight(cfg: Config, f: Flight, now: real) {
    && Distinct(f.order) && |f.order| == |cfg.providers| && (forall p | p in f.order :: p in cfg.providers)
    && f.index < |f.order| && f.attempt <= cfg.policy.maxRetries && f.startedAt <= now
    && (f.phase.BackingOff? ==> f.attempt < cfg.policy.maxRetries)
  }

  ghost predicate Ready(cfg: Config, s: Sys) {
    && ValidConfig(cfg) && Fits(cfg, s.core)
    && forall id | id in s.flights :: GoodFlight(cfg, s.flights[id], s.now)
  }

  predicate Enabled(s: Sys, step: Step) {
    match step
    case Arrive(id) => id !in s.flights
    case Return(id, _) => id in s.flights && s.flights[id].phase.Attempting?
    case Wake(id) => id in s.flights && s.flights[id].phase.BackingOff?
    case Abort(id) => id in s.flights
    case Tick(_) => true
  }

  function NextProvider(f: Flight, fault: Fault): Option<Name> {
    if FallsBack(Surfaced(fault)) && f.index + 1 < |f.order| then Some(f.order[f.index + 1]) else None
  }

  function OnReturn(cfg: Config, s: Sys, id: nat, result: Result<LLMResponse, Fault>): Sys
    requires Ready(cfg, s) && id in s.flights
  {
    var f := s.flights[id];
    var p := f.order[f.index];
    match result
    case Ok(_) =>
      s.(core := OnSuccess(cfg, s.core, p, s.now - f.startedAt, s.now),
         flights := s.flights - {id},
         publishedAt := s.now)
    case Err(fault) =>
      if Retryable(fault) && f.attempt < cfg.policy.maxRetries then
        s.(core := OnRetry(s.core, p, Label(fault)), flights := s.flights[id := f.(phase := BackingOff)])
      else
        var next := NextProvider(f, fault);
        s.(core := OnGiveUp(cfg, s.core, p, Label(fault), next, s.now),
           flights := if next.Some? then s.flights[id := Flight(f.order, f.index + 1, 0, s.now, Attempting)]
                      else s.flights - {id},
           publishedAt := s.now)
  }

  function Next(cfg: Config, s: Sys, step: Step): Sys
    requires Ready(cfg, s) && Enabled(s, step)
  {
    match step
    case Arrive(id) =>
      var flight := Flight(Ordered(cfg.providers, Pick(cfg, s.core, s.now)), 0, 0, s.now, Attempting);
      s.(core := OnSelect(cfg, s.core, s.now), flights := s.flights[id := flight], publishedAt := s.now)
    case Return(id, result) => OnReturn(cfg, s, id, result)
    case Wake(id) =>
      var f := s.flights[id];
      s.(flights := s.flights[id := f.(attempt := f.attempt + 1, phase := Attempting)])
    case Abort(id) =>
      var f := s.flights[id];
      s.(flights := s.flights - {id}, aborted := s.aborted + multiset{f.order[f.index]})
    case Tick(d) => s.(now := s.now + d)
  }

  lemma StepKeepsReady(cfg: Config, s: Sys, step: Step)
    requires Ready(cfg, s) && Enabled(s, step)
    ensures Ready(cfg, Next(cfg, s, step))
  {
    hide Snapshot, Select, Label, Stats.AfterSuccess, Stats.AfterFailure, Others;
    if step.Arrive? {
      OrderIsPermutation(cfg.providers, Pick(cfg, s.core, s.now));
    }
  }

  lemma StepKeepsTable(cfg: Config, s: Sys, step: Step)
    requires Ready(cfg, s) && Enabled(s, step)
    ensures Fits(cfg, s.core) && Next(cfg, s, step).core.table.Keys == s.core.table.Keys
  {
    hide Snapshot, Select, Label, Others, FallsBack, Retryable;
  }

  // ---------------------------------------------------------------------------
  // Conservation
  // ---------------------------------------------------------------------------

  function CountFor(counter: multiset<(Name, ErrorLabel)>, p: Name): nat {
    counter[(p, TimeoutLabel)] + counter[(p, RateLimitLabel)] + counter[(p, UnavailableLabel)] +
    counter[(p, AuthenticationLabel)] + counter[(p, ProviderErrorLabel)]
  }

  function TotalRequests(providers: seq<Name>, table: Table): nat
    requires Covers(providers, table)
  {
    if providers == [] then 0 else table[providers[0]].requests + TotalRequests(providers[1..], table)
  }

  /** Each provider's counters agree with its router statistics. */
  ghost predicate Balanced(core: Core, p: Name)
    requires p in core.table
  {
    var m, s := core.metrics, core.table[p];
    && CountFor(m.errors, p) == CountFor(m.retries, p) + s.failures
    && m.requests[(p, true)] == s.successes
    && m.requests[(p, false)] == CountFor(m.errors, p)
  }

  /** Every selection and every fallback opens one turn; a turn is recorded by the router, still in
      flight, or was aborted. */
  ghost predicate TurnsAddUp(cfg: Config, s: Sys)
    requires Fits(cfg, s.core)
  {
    TotalRequests(cfg.providers, s.core.table) + |s.flights| + |s.aborted| ==
    |s.core.metrics.selected| + |s.core.metrics.fallbacks|
  }

  /** Calls in flight whose present turn is `p`'s. */
  function FlightsAt(flights: map<nat, Flight>, p: Name): set<nat> {
    set id | id in flights && flights[id].At(p)
  }

  function FallbacksTo(providers: seq<Name>, fallbacks: multiset<(Name, Name)>, p: Name): nat {
    if providers == [] then 0 else fallbacks[(providers[0], p)] + FallbacksTo(providers[1..], fallbacks, p)
  }

  /** The same for the turns of one provider: none is recorded under another name. */
  ghost predicate TurnsAddUpAt(cfg: Config, s: Sys, p: Name)
    requires p in s.core.table
  {
    s.core.table[p].requests + |FlightsAt(s.flights, p)| + s.aborted[p] ==
    s.core.metrics.selected[p] + FallbacksTo(cfg.providers, s.core.metrics.fallbacks, p)
  }

  ghost predicate Conserved(cfg: Config, s: Sys)
    requires Fits(cfg, s.core)
  {
    && (forall p | p in s.core.table :: Balanced(s.core, p) && TurnsAddUpAt(cfg, s, p))
    && TurnsAddUp(cfg, s)
  }

  lemma {:induction false} OneMoreRequest(providers: seq<Name>, before: Table, after: Table, p: Name)
    requires Distinct(providers) && Covers(providers, before) && Covers(providers, after)
    requires forall q | q in providers && q != p :: after[q] == before[q]
    requires p in providers ==> after[p].requests == before[p].requests + 1
    ensures TotalRequests(providers, after) == TotalRequests(providers, before) + if p in providers then 1 else 0
  {
    if providers != [] {
      assert providers[0] !in providers[1..];
      assert forall q | q in providers :: q == providers[0] || q in providers[1..];
      OneMoreRequest(providers[1..], before, after, p);
    }
  }

  lemma LandedError(m: Metrics, p: Name, kind: ErrorLabel, q: Name)
    ensures var after := m.CountError(p, kind);
            && CountFor(after.errors, q) == CountFor(m.errors, q) + (if q == p then 1 else 0)
            && after.requests[(q, false)] == m.requests[(q, false)] + (if q == p then 1 else 0)
            && after.requests[(q, true)] == m.requests[(q, true)]
    ensures CountFor(m.CountRetry(p, kind).retries, q) == CountFor(m.retries, q) + (if q == p then 1 else 0)
  {
  }

  lemma FailureBalances(cfg: Config, core: Core, p: Name, kind: ErrorLabel, next: Option<Name>, now: real, q: Name)
    requires p in core.table && q in core.table && Balanced(core, q)
    ensures Balanced(OnGiveUp(cfg, core, p, kind, next, now), q)
  {
    hide Snapshot, CountFor;
    LandedError(core.metrics, p, kind, q);
  }

  lemma RetryBalances(core: Core, p: Name, kind: ErrorLabel, q: Name)
    requires q in core.table && Balanced(core, q)
    ensures Balanced(OnRetry(core, p, kind), q)
  {
    hide CountFor;
    LandedError(core.metrics, p, kind, q);
    LandedError(core.metrics.CountError(p, kind), p, kind, q);
  }

  lemma SuccessBalances(cfg: Config, core: Core, p: Name, latency: real, now: real, q: Name)
    requires p in core.table && q in core.table && Balanced(core, q)
    ensures Balanced(OnSuccess(cfg, core, p, latency, now), q)
  {
    hide Snapshot, CountFor;
  }

  lemma StepKeepsBalance(cfg: Config, s: Sys, step: Step, q: Name)
    requires Ready(cfg, s) && Enabled(s, step) && q in s.core.table && Balanced(s.core, q)
    ensures q in Next(cfg, s, step).core.table && Balanced(Next(cfg, s, step).core, q)
  {
    hide Snapshot, Select, Label, Others, OnRetry, CountFor, Retryable, FallsBack;
    if step.Return? {
      hide OnSuccess, OnGiveUp, Balanced;
      StepKeepsTable(cfg, s, step);
      var f := s.flights[step.id];
      var p := f.order[f.index];
      match step.result {
        case Ok(_) => SuccessBalances(cfg, s.core, p, s.now - f.startedAt, s.now, q);
        case Err(fault) =>
          RetryBalances(s.core, p, Label(fault), q);
          FailureBalances(cfg, s.core, p, Label(fault), NextProvider(f, fault), s.now, q);
      }
    }
  }

  lemma RecordedTurn(cfg: Config, before: Core, after: Core, p: Name)
    requires ValidConfig(cfg) && Fits(cfg, before) && p in before.table
    requires exists s: Stats :: s.requests == before.table[p].requests + 1 && after.table == before.table[p := s]
    ensures Fits(cfg, after)
    ensures TotalRequests(cfg.providers, after.table) == TotalRequests(cfg.providers, before.table) + 1
  {
    OneMoreRequest(cfg.providers, before.table, after.table, p);
  }

  lemma ReturnKeepsTurns(cfg: Config, s: Sys, id: nat, result: Result<LLMResponse, Fault>)
    requires Ready(cfg, s) && id in s.flights && TurnsAddUp(cfg, s)
    ensures var s' := OnReturn(cfg, s, id, result); Fits(cfg, s'.core) && TurnsAddUp(cfg, s')
  {
    hide Snapshot, Label, FallsBack, Retryable, TotalRequests;
    var f := s.flights[id];
    var p := f.order[f.index];
    assert |s.flights - {id}| == |s.flights| - 1;
    match result {
      case Ok(_) =>
        var after := OnSuccess(cfg, s.core, p, s.now - f.startedAt, s.now);
        assert after.table == s.core.table[p := s.core.table[p].AfterSuccess(s.now - f.startedAt)];
        RecordedTurn(cfg, s.core, after, p);
      case Err(fault) =>
        var after := OnGiveUp(cfg, s.core, p, Label(fault), NextProvider(f, fault), s.now);
        assert after.table == s.core.table[p := s.core.table[p].AfterFailure(s.now)];
        RecordedTurn(cfg, s.core, after, p);
    }
  }

  lemma StepKeepsTurns(cfg: Config, s: Sys, step: Step)
    requires Ready(cfg, s) && Enabled(s, step) && TurnsAddUp(cfg, s)
    requires Fits(cfg, Next(cfg, s, step).core)
    ensures TurnsAddUp(cfg, Next(cfg, s, step))
  {
    hide Snapshot, Select, Others, OnReturn;
    if step.Return? {
      hide TurnsAddUp;
      ReturnKeepsTurns(cfg, s, step.id, step.result);
    } else if step.Abort? {
      assert |s.flights - {step.id}| == |s.flights| - 1;
    }
  }

  lemma {:induction false} FallbackLands(
    providers: seq<Name>, fallbacks: multiset<(Name, Name)>, from: Name, to: Name, p: Name)
    requires Distinct(providers)
    ensures FallbacksTo(providers, fallbacks + multiset{(from, to)}, p) ==
            FallbacksTo(providers, fallbacks, p) + if from in providers && to == p then 1 else 0
  {
    if providers != [] {
      assert providers[0] !in providers[1..];
      assert forall q | q in providers :: q == providers[0] || q in providers[1..];
      FallbackLands(providers[1..], fallbacks, from, to, p);
    }
  }

  lemma FlightMoves(flights: map<nat, Flight>, id: nat, f: Flight, p: Name)
    ensures |FlightsAt(flights, p)| ==
            |FlightsAt(flights - {id}, p)| + if id in flights && flights[id].At(p) then 1 else 0
    ensures |FlightsAt(flights[id := f], p)| == |FlightsAt(flights - {id}, p)| + if f.At(p) then 1 else 0
  {
    hide FlightsAt, Flight.At;
    var rest := flights - {id};
    assert flights[id := f] == rest[id := f];
    FlightAdded(rest, id, f, p);
    if id in flights {
      assert flights == rest[id := flights[id]];
      FlightAdded(rest, id, flights[id], p);
    } else {
      assert flights == rest;
    }
  }

  lemma FlightAdded(flights: map<nat, Flight>, id: nat, f: Flight, p: Name)
    requires id !in flights
    ensures |FlightsAt(flights[id := f], p)| == |FlightsAt(flights, p)| + if f.At(p) then 1 else 0
  {
    hide Flight.At;
    var before, after := FlightsAt(flights, p), FlightsAt(flights[id := f], p);
    if f.At(p) {
      assert after == before + {id};
    } else {
      assert after == before;
    }
  }

  lemma SuccessKeepsTurnsAt(cfg: Config, s: Sys, id: nat, response: LLMResponse, p: Name)
    requires Ready(cfg, s) && id in s.flights && p in s.core.table && TurnsAddUpAt(cfg, s, p)
    ensures var s' := OnReturn(cfg, s, id, Ok(response)); p in s'.core.table && TurnsAddUpAt(cfg, s', p)
  {
    hide Snapshot, Label, FallsBack, Retryable, FlightsAt, FallbacksTo;
    FlightMoves(s.flights, id, s.flights[id], p);
  }

  /** A failed attempt that is retried: the flight stays where it is. */
  lemma RetryKeepsTurnsAt(cfg: Config, s: Sys, id: nat, fault: Fault, p: Name)
    requires Ready(cfg, s) && id in s.flights && p in s.core.table && TurnsAddUpAt(cfg, s, p)
    requires Retryable(fault) && s.flights[id].attempt < cfg.policy.maxRetries
    ensures var s' := OnReturn(cfg, s, id, Err(fault)); p in s'.core.table && TurnsAddUpAt(cfg, s', p)
  {
    hide Label, FallsBack, Retryable, FlightsAt, FallbacksTo;
    FlightMoves(s.flights, id, s.flights[id].(phase := BackingOff), p);
  }

  /** A failed attempt that is given up: the call moves to the next provider, or ends. */
  lemma GiveUpKeepsTurnsAt(cfg: Config, s: Sys, id: nat, fault: Fault, p: Name)
    requires Ready(cfg, s) && id in s.flights && p in s.core.table && TurnsAddUpAt(cfg, s, p)
    requires !(Retryable(fault) && s.flights[id].attempt < cfg.policy.maxRetries)
    ensures var s' := OnReturn(cfg, s, id, Err(fault)); p in s'.core.table && TurnsAddUpAt(cfg, s', p)
  {
    hide Snapshot, Label, FallsBack, Retryable, FlightsAt, FallbacksTo;
    var f := s.flights[id];
    FlightMoves(s.flights, id, f, p);
    var next := NextProvider(f, fault);
    if next.Some? {
      FlightMoves(s.flights, id, Flight(f.order, f.index + 1, 0, s.now, Attempting), p);
      FallbackLands(cfg.providers, s.core.metrics.fallbacks, f.order[f.index], next.value, p);
    }
  }

  lemma ReturnKeepsTurnsAt(cfg: Config, s: Sys, id: nat, result: Result<LLMResponse, Fault>, p: Name)
    requires Ready(cfg, s) && id in s.flights && p in s.core.table && TurnsAddUpAt(cfg, s, p)
    ensures var s' := OnReturn(cfg, s, id, result); p in s'.core.table && TurnsAddUpAt(cfg, s', p)
  {
    hide OnReturn, TurnsAddUpAt, Retryable;
    match result {
      case Ok(response) =>
        SuccessKeepsTurnsAt(cfg, s, id, response, p);
      case Err(fault) =>
        if Retryable(fault) && s.flights[id].attempt < cfg.policy.maxRetries {
          RetryKeepsTurnsAt(cfg, s, id, fault, p);
        } else {
          GiveUpKeepsTurnsAt(cfg, s, id, fault, p);
        }
    }
  }

  lemma StepKeepsTurnsAt(cfg: Config, s: Sys, step: Step, p: Name)
    requires Ready(cfg, s) && Enabled(s, step) && p in s.core.table && TurnsAddUpAt(cfg, s, p)
    ensures var s' := Next(cfg, s, step); p in s'.core.table && TurnsAddUpAt(cfg, s', p)
  {
    hide Snapshot, Select, Others, OnReturn, FlightsAt, FallbacksTo;
    match step {
      case Arrive(id) =>
        var order := Ordered(cfg.providers, Pick(cfg, s.core, s.now));
        FlightMoves(s.flights, id, Flight(order, 0, 0, s.now, Attempting), p);
      case Return(id, result) =>
        ReturnKeepsTurnsAt(cfg, s, id, result, p);
      case Wake(id) =>
        var f := s.flights[id];
        FlightMoves(s.flights, id, f.(attempt := f.attempt + 1, phase := Attempting), p);
      case Abort(id) =>
        FlightMoves(s.flights, id, s.flights[id], p);
      case Tick(_) =>
    }
  }

  // ---------------------------------------------------------------------------
  // Gauges
  // ---------------------------------------------------------------------------

  /** All gauges were computed from the present statistics, at a time not later than now. */
  ghost predicate Published(cfg: Config, s: Sys) {
    s.publishedAt <= s.now && s.core.metrics.gauges == Snapshot(s.core.table, s.publishedAt, cfg.cooldown)
  }

  lemma OverlayIsWhole(table: Table, after: Table, at: real, now: real, cooldown: real)
    requires after.Keys == table.Keys
    ensures Snapshot(table, at, cooldown) + Snapshot(after, now, cooldown) == Snapshot(after, now, cooldown)
  {
    hide GaugeOf;
  }

  lemma StepKeepsPublished(cfg: Config, s: Sys, step: Step)
    requires Ready(cfg, s) && Enabled(s, step) && Published(cfg, s)
    ensures Published(cfg, Next(cfg, s, step))
  {
    hide Snapshot, Select, Label, Others, FallsBack, Retryable;
    var s' := Next(cfg, s, step);
    OverlayIsWhole(s.core.table, s'.core.table, s.publishedAt, s'.publishedAt, cfg.cooldown);
  }

  /** What a scrape can rely on: all values are current, except that a provider shown unhealthy may
      have become available since, by serving out its cooldown. */
  lemma GaugesAgree(cfg: Config, s: Sys, p: Name)
    requires Published(cfg, s) && p in s.core.table
    ensures p in s.core.metrics.gauges
    ensures var g, fresh' := s.core.metrics.gauges[p], GaugeOf(s.core.table[p], s.now, cfg.cooldown);
            && g == fresh'.(healthy := g.healthy)
            && (g.healthy ==> fresh'.healthy)
            && (!g.healthy && fresh'.healthy ==>
                  && s.core.table[p].consecutiveFailures >= FAILURE_THRESHOLD
                  && s.publishedAt < s.core.table[p].lastFailureAt.value + cfg.cooldown <= s.now)
  {
    hide Stats.Score, Stats.SuccessRate, Stats.ErrorRate, Stats.AverageLatency;
  }

  // ---------------------------------------------------------------------------
  // Every reachable state
  // ---------------------------------------------------------------------------

  ghost predicate Inv(cfg: Config, s: Sys) {
    Ready(cfg, s) && Conserved(cfg, s) && Published(cfg, s)
  }

  /** `states` is an execution: it starts at start-up and every step was possible. */
  ghost predicate Execution(cfg: Config, states: seq<Sys>, steps: seq<Step>) {
    && |states| == |steps| + 1
    && ValidConfig(cfg) && states[0] == Init(cfg, states[0].now)
    && forall i | 0 <= i < |steps| ::
         Ready(cfg, states[i]) && Enabled(states[i], steps[i]) && states[i + 1] == Next(cfg, states[i], steps[i])
  }

  lemma {:induction false} NothingRequested(providers: seq<Name>, table: Table)
    requires Covers(providers, table) && forall p | p in providers :: table[p] == FRESH
    ensures TotalRequests(providers, table) == 0
  {
    if providers != [] {
      NothingRequested(providers[1..], table);
    }
  }

  lemma {:induction false} NoFallbacks(providers: seq<Name>, p: Name)
    ensures FallbacksTo(providers, multiset{}, p) == 0
  {
    if providers != [] {
      NoFallbacks(providers[1..], p);
    }
  }

  lemma StepKeepsInv(cfg: Config, s: Sys, step: Step)
    requires Inv(cfg, s) && Enabled(s, step)
    ensures Inv(cfg, Next(cfg, s, step))
  {
    hide Next, Balanced, TurnsAddUp, TurnsAddUpAt, Published, Ready;
    StepKeepsReady(cfg, s, step);
    StepKeepsTable(cfg, s, step);
    forall q | q in s.core.table
      ensures q in Next(cfg, s, step).core.table && Balanced(Next(cfg, s, step).core, q)
      ensures TurnsAddUpAt(cfg, Next(cfg, s, step), q)
    {
      StepKeepsBalance(cfg, s, step, q);
      StepKeepsTurnsAt(cfg, s, step, q);
    }
    StepKeepsTurns(cfg, s, step);
    StepKeepsPublished(cfg, s, step);
  }

  /** At every await point of every interleaving: per provider, errors = retries + router failures and
      success responses = router successes; per provider and over all, recorded turns + calls in flight +
      aborted calls = selections + fallbacks; and the gauges are those of the present statistics. */
  lemma {:induction false} Conservation(cfg: Config, states: seq<Sys>, steps: seq<Step>, i: nat)
    requires Execution(cfg, states, steps) && i < |states|
    ensures Inv(cfg, states[i])
  {
    hide Next, GaugeOf;
    if i == 0 {
      NothingRequested(cfg.providers, states[0].core.table);
      forall p
        ensures FallbacksTo(cfg.providers, multiset{}, p) == 0
      {
        NoFallbacks(cfg.providers, p);
      }
    } else {
      Conservation(cfg, states, steps, i - 1);
      StepKeepsInv(cfg, states[i - 1], steps[i - 1]);
    }
  }

  /** An execution never gets stuck on a malformed state: a possible step can always be taken. */
  lemma ExecutionsExtend(cfg: Config, states: seq<Sys>, steps: seq<Step>, step: Step)
    requires Execution(cfg, states, steps) && Enabled(states[|steps|], step)
    ensures Ready(cfg, states[|steps|])
    ensures Execution(cfg, states + [Next(cfg, states[|steps|], step)], steps + [step])
  {
    hide Next, Conserved, Published, InitialCore;
    Conservation(cfg, states, steps, |steps|);
  }
}
