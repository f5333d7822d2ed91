/** The gateway as the program runs it, against a clock and a script of provider reactions. */
module Gateway {
  import opened Prelude
  import opened RouterSpec
  import opened GatewaySpec
  import opened Router
  import GatewayLaws

  /** The process clock; it moves only while an attempt or a backoff is awaited. */
  class Clock {
    var now: real

    constructor (now: real)
      ensures this.now == now
    {
      this.now := now;
    }

    method Pass(d: real)
      modifies this
      ensures now == old(now) + d
    {
      now := now + d;
    }
  }

  class LLMGateway {
    const providers: seq<Name>
    const policy: Policy
    const router: ProviderRouter
    const clock: Clock

    // The Prometheus collectors.
    var requestsTotal: multiset<(Name, bool)>
    var errorsTotal: multiset<(Name, ErrorLabel)>
    var retriesTotal: multiset<(Name, ErrorLabel)>
    var fallbacksTotal: multiset<(Name, Name)>
    var selectedTotal: multiset<Name>
    var gauges: map<Name, Gauge>

    ghost predicate Valid()
      reads this, router, router.stats.Values
    {
      router.Valid() && router.providers == providers && ValidConfig(Settings())
    }

    ghost function Settings(): Config {
      Config(providers, router.cooldown, policy)
    }

    ghost function Collected(): Metrics
      reads this
    {
      Metrics(requestsTotal, errorsTotal, retriesTotal, fallbacksTotal, selectedTotal, gauges)
    }

    ghost function State(): (core: Core)
      requires Valid()
      reads this, router, router.stats.Values
      ensures Fits(Settings(), core)
    {
      Core(router.Table(), Collected())
    }

    constructor (providers: seq<Name>, policy: Policy, clock: Clock)
      requires Rejection(providers, policy) == None && Distinct(providers)
      ensures Valid() && fresh(router) && fresh(router.stats.Values)
      ensures this.clock == clock && Settings() == Config(providers, 30.0, policy)
      ensures router.Table() == map p | p in providers :: FRESH
      ensures Collected() == NO_METRICS.(gauges := Snapshot(router.Table(), clock.now, 30.0))
    {
      hide Snapshot, ProviderRouter.Table, ProviderRouter.Valid;
      this.providers := providers;
      this.policy := policy;
      this.clock := clock;
      requestsTotal, errorsTotal, retriesTotal := multiset{}, multiset{}, multiset{};
      fallbacksTotal, selectedTotal, gauges := multiset{}, multiset{}, map[];
      router := new ProviderRouter(providers, 30.0);
      new;
      UpdateProviderMetrics();
      assert map[] + Snapshot(router.Table(), clock.now, 30.0) == Snapshot(router.Table(), clock.now, 30.0);
    }

    /** Construction from settings as they come: rejected at the first check that fails. */
    static method Create(
      providers: seq<Name>, policy: Policy, clock: Clock)
      returns (r: Result<LLMGateway, PolicyError>)
      requires Distinct(providers)
      ensures r.Ok? <==> providers != [] && ValidPolicy(policy)
      ensures r.Err? ==> Rejection(providers, policy) == Some(r.error)
      ensures r.Ok? ==> fresh(r.value) && r.value.Valid() && r.value.clock == clock
      ensures r.Ok? ==> r.value.Settings() == Config(providers, 30.0, policy)
      ensures r.Ok? ==> r.value.State() == InitialCore(r.value.Settings(), clock.now)
    {
      var rejected := Rejection(providers, policy);
      if rejected.Some? {
        return Err(rejected.value);
      }
      var gateway := new LLMGateway(providers, policy, clock);
      return Ok(gateway);
    }

    method UpdateProviderMetrics()
      requires Valid()
      modifies this`gauges
      ensures gauges == old(gauges) + Snapshot(router.Table(), clock.now, router.cooldown)
      ensures State() == Publish(Settings(), old(State()), clock.now)
    {
      hide Snapshot, GaugeOf, ProviderRouter.Table, ProviderRouter.Valid, Refreshed;
      var published := PublishedGauges();
      OverlayIsSnapshot(Settings(), gauges, published, router.Table(), clock.now);
      gauges := published;
    }

    method PublishedGauges() returns (published: map<Name, Gauge>)
      requires Valid()
      ensures Refreshed(Settings(), gauges, published, router.Table(), |providers|, clock.now)
    {
      hide GaugeOf, ScoreOf, ProviderRouter.Table, ProviderRouter.Valid;
      ghost var cfg, before, table := Settings(), gauges, router.Table();
      var scores := router.GetScores(clock.now);
      published := gauges;
      for i := 0 to |scores|
        invariant Refreshed(cfg, before, published, table, i, clock.now)
      {
        hide Refreshed;
        var gauge := GaugeFor(providers[i], scores[i]);
        RefreshOne(cfg, before, published, table, i, clock.now);
        published := published[providers[i] := gauge];
      }
    }

    /** The seven gauge values of one provider: five from its statistics, two from its score. */
    method GaugeFor(p: Name, score: ProviderScore) returns (gauge: Gauge)
      requires Valid() && p in providers
      requires score == ScoreOf(p, router.Table()[p], clock.now, router.cooldown)
      ensures gauge == GaugeOf(router.Table()[p], clock.now, router.cooldown)
    {
      hide Stats.Score, Stats.Available, Stats.SuccessRate, Stats.ErrorRate, Stats.AverageLatency;
      var s := router.stats[p];
      gauge := Gauge(s.requests, s.Value().SuccessRate(), s.Value().ErrorRate(), s.Value().AverageLatency(),
                     s.consecutiveFailures, score.healthy, score.score);
    }

    method OrderedProviders(selected: Name) returns (ordered: seq<Name>)
      ensures ordered == Ordered(providers, selected)
    {
      ordered := [selected];
      for i := 0 to |providers|
        invariant ordered + Others(providers[i..], selected) == Ordered(providers, selected)
      {
        assert providers[i..][0] == providers[i] && providers[i..][1..] == providers[i + 1..];
        if providers[i] == selected {
          continue;
        }
        ordered := ordered + [providers[i]];
      }
    }

    method Backoff(attempt: nat)
      requires Valid()
      modifies clock
      ensures clock.now == old(clock.now) + Delay(policy, attempt)
    {
      var factor := 1.0;
      for i := 0 to attempt
        invariant factor == Pow2(i)
      {
        factor := 2.0 * factor;
      }
      var delay := policy.baseDelay * factor;
      clock.Pass(if delay <= policy.maxDelay then delay else policy.maxDelay);
    }

    method CountError(p: Name, kind: ErrorLabel)
      requires Valid()
      modifies this`requestsTotal, this`errorsTotal
      ensures Collected() == old(Collected()).CountError(p, kind)
    {
      requestsTotal := requestsTotal + multiset{(p, false)};
      errorsTotal := errorsTotal + multiset{(p, kind)};
    }

    method CountRetry(p: Name, kind: ErrorLabel)
      requires Valid()
      modifies this`retriesTotal
      ensures Collected() == old(Collected()).CountRetry(p, kind)
    {
      retriesTotal := retriesTotal + multiset{(p, kind)};
    }

    method CountSuccess(p: Name)
      requires Valid()
      modifies this`requestsTotal
      ensures Collected() == old(Collected()).CountSuccess(p)
    {
      requestsTotal := requestsTotal + multiset{(p, true)};
    }

    /** The retry loop. An exception that leaves it has already been counted as an error. */
    method GenerateWithRetry(p: Name, script: Script) returns (r: Result<LLMResponse, ErrorKind>, ghost last: nat)
      requires Valid()
      modifies this`requestsTotal, this`errorsTotal, this`retriesTotal, clock
      ensures EndsAt(policy, script, last)
      ensures r == Ended(Seen(policy, script, last).result) == EndingOf(policy, script).result
      ensures forall k: nat | k <= policy.maxRetries && GatewayLaws.FirstLasting(policy, script, k) ::
                last == k && r == script(k).result
      ensures clock.now == old(clock.now) + AttemptTime(policy, script, last + 1) + BackoffTime(policy, last)
      ensures Collected() == Counted(policy, old(Collected()), p, script, last)
    {
      hide Delay, Seen, Label, Metrics.CountSuccess, Metrics.CountError, Metrics.CountRetry;
      hide ProviderRouter.Table, ProviderRouter.Valid, EndingOf, GatewayLaws.FirstLasting;
      var attempt := 0;
      while true
        invariant attempt <= policy.maxRetries
        invariant forall k: nat | k < attempt :: FailsRetryably(policy, script, k)
        invariant Collected() == AfterRetries(policy, old(Collected()), p, script, attempt)
        invariant clock.now == old(clock.now) + AttemptTime(policy, script, attempt) + BackoffTime(policy, attempt)
        decreases policy.maxRetries - attempt
      {
        var seen := Seen(policy, script, attempt);
        clock.Pass(seen.elapsed);
        if seen.result.Ok? {
          CountSuccess(p);
          GatewayLaws.FirstLastingEnds(policy, script, attempt);
          return Ok(seen.result.value), attempt;
        }
        var fault := seen.result.error;
        CountError(p, Label(fault));
        if !Retryable(fault) || attempt >= policy.maxRetries {
          GatewayLaws.FirstLastingEnds(policy, script, attempt);
          return Err(Surfaced(fault)), attempt;
        }
        CountRetry(p, Label(fault));
        Backoff(attempt);
        attempt := attempt + 1;
      }
    }

    method RecordSuccess(p: Name, latency: Duration)
      requires Valid() && p in providers
      modifies this`gauges, router.stats.Values
      ensures Valid() && router.stats == old(router.stats)
      ensures State() == RecordedSuccess(Settings(), old(State()), p, latency, clock.now)
    {
      hide Publish, Stats.AfterSuccess, ProviderRouter.Table, ProviderRouter.Valid;
      var _ := router.RecordSuccess(p, latency);
      UpdateProviderMetrics();
    }

    /** What every branch that gives up on a provider begins with. */
    method NoteFailure(p: Name)
      requires Valid() && p in providers
      modifies this`gauges, router.stats.Values
      ensures Valid() && router.stats == old(router.stats)
      ensures State() == FailedAt(Settings(), old(State()), p, clock.now)
    {
      hide Publish, Stats.AfterFailure, ProviderRouter.Table, ProviderRouter.Valid;
      var _ := router.RecordFailure(p, clock.now);
      UpdateProviderMetrics();
    }

    method RecordFailure(p: Name, next: Option<Name>)
      requires Valid() && p in providers
      modifies this`gauges, this`fallbacksTotal, router.stats.Values
      ensures Valid() && router.stats == old(router.stats)
      ensures State() == RecordedFailure(Settings(), old(State()), p, next, clock.now)
    {
      hide Publish, FailedAt, Metrics.CountFallback, ProviderRouter.Table, ProviderRouter.Valid;
      NoteFailure(p);
      if next.Some? {
        CountFallback(p, next.value);
      }
    }

    method CountFallback(p: Name, next: Name)
      requires Valid()
      modifies this`fallbacksTotal
      ensures Collected() == old(Collected()).CountFallback(p, next)
    {
      fallbacksTotal := fallbacksTotal + multiset{(p, next)};
    }

    /** One provider's turn within a call; `next` is the provider a transient failure leads to. */
    method TakeTurn(p: Name, script: Script, next: Option<Name>) returns (r: Result<LLMResponse, ErrorKind>)
      requires Valid() && p in providers
      modifies this, router.stats.Values, clock
      ensures Valid() && router.stats == old(router.stats)
      ensures r == EndingOf(policy, script).result
      ensures clock.now == old(clock.now) + EndingOf(policy, script).elapsed
      ensures State() == AfterTurn(Settings(), old(State()), p, script, next, old(clock.now))
    {
      hide AttemptTime, BackoffTime, EndingOf, AfterTurn, EndsAt, Counted, Seen, RecordedSuccess, RecordedFailure;
      hide ProviderRouter.Table, ProviderRouter.Valid;
      ghost var cfg, before, start := Settings(), State(), clock.now;
      var startedAt := clock.now;
      ghost var last;
      r, last := GenerateWithRetry(p, script);
      EndingIs(policy, script, last);
      TurnIs(cfg, before, p, script, next, start, last);
      if r.Ok? {
        ElapsedIsDuration(policy, script);
        RecordSuccess(p, clock.now - startedAt);
      } else {
        RecordFailure(p, if FallsBack(r.error) then next else None);
      }
    }

    method CountSelected(p: Name)
      requires Valid()
      modifies this`selectedTotal
      ensures State() == old(State()).(metrics := old(State()).metrics.CountSelected(p))
    {
      selectedTotal := selectedTotal + multiset{p};
    }

    /** The routing decision: who is asked, in which order. */
    method Route() returns (ordered: seq<Name>)
      requires Valid()
      modifies this`selectedTotal, this`gauges
      ensures ordered == Ordered(providers, Pick(Settings(), old(State()), clock.now))
      ensures ordered != [] && forall p | p in ordered :: p in providers
      ensures State() == OnSelect(Settings(), old(State()), clock.now)
    {
      hide Publish, Metrics.CountSelected, ProviderRouter.Table, ProviderRouter.Valid, Select, Others;
      var selected := router.SelectProvider(clock.now);
      OrderIsPermutation(providers, selected);
      ordered := OrderedProviders(selected);
      CountSelected(selected);
      UpdateProviderMetrics();
    }

    /** A request: pick a provider, then walk the order. */
    method Generate(script: CallScript) returns (r: Result<LLMResponse, ErrorKind>)
      requires Valid()
      modifies this, router.stats.Values, clock
      ensures Valid() && router.stats == old(router.stats)
      ensures CallEnd(State(), clock.now, r) == Call(Settings(), old(State()), script, old(clock.now))
    {
      hide OnSelect, Pick, Ordered, CallFrom, ProviderRouter.Table, ProviderRouter.Valid;
      var ordered := Route();
      r := Walk(ordered, script);
    }

    /** Ask one provider after the other until one answers or one fails for good. */
    method Walk(ordered: seq<Name>, script: CallScript) returns (r: Result<LLMResponse, ErrorKind>)
      requires Valid() && ordered != [] && forall p | p in ordered :: p in providers
      modifies this, router.stats.Values, clock
      ensures Valid() && router.stats == old(router.stats)
      ensures CallEnd(State(), clock.now, r) == CallFrom(Settings(), old(State()), ordered, script, old(clock.now))
    {
      hide EndingOf, AfterTurn, CallFrom, ProviderRouter.Table, ProviderRouter.Valid;
      ghost var cfg, end := Settings(), CallFrom(Settings(), State(), ordered, script, clock.now);
      var lastError: Option<ErrorKind> := None;
      assert ordered[0..] == ordered;
      r := Err(GenericError);  // "all LLM providers failed", unless overwritten below
      for index := 0 to |ordered|
        invariant Valid() && router.stats == old(router.stats)
        invariant index < |ordered| ==> CallFrom(cfg, State(), ordered[index..], script, clock.now) == end
        invariant index == |ordered| ==> lastError.Some? && CallEnd(State(), clock.now, Err(lastError.value)) == end
      {
        ghost var core, now, rest := State(), clock.now, ordered[index..];
        assert rest[0] == ordered[index] && rest[1..] == ordered[index + 1..];
        var next := if index + 1 < |ordered| then Some(ordered[index + 1]) else None;
        CallUnfolds(cfg, core, rest, script, now);
        var turn := TakeTurn(ordered[index], script(ordered[index]), next);
        assert State() == AfterTurn(cfg, core, rest[0], script(rest[0]), next, now);
        if turn.Ok? {
          return turn;
        }
        if !FallsBack(turn.error) {
          return turn;
        }
        lastError := Some(turn.error);
      }
      if lastError.Some? {
        return Err(lastError.value);
      }
      assert false;
    }
  }
}
