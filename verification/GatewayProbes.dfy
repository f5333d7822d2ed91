/** Half-open probes when calls overlap: when several can be in flight, and until when. */
module GatewayProbes {
  import opened Prelude
  import opened RouterSpec
  import opened GatewaySpec
  import opened GatewayConcurrent
  import opened GatewayRefinement
  import Sequential = GatewayRuns
  import opened StepSystems

  predicate Open(s: Stats) {
    s.consecutiveFailures >= FAILURE_THRESHOLD
  }

  /** An open breaker that lets the next selection through. */
  predicate HalfOpen(cfg: Config, s: Sys, p: Name)
    requires p in s.core.table
  {
    Open(s.core.table[p]) && s.core.table[p].Available(s.now, cfg.cooldown)
  }

  /** A selection leaves no trace a second one could see: calls that arrive together go the same way. */
  lemma ArrivalsAgree(cfg: Config, s: Sys, id: nat, id': nat)
    requires Ready(cfg, s) && id !in s.flights && id' !in s.flights && id != id'
    ensures var s1 := Next(cfg, s, Arrive(id));
            Ready(cfg, s1) && s1.core.table == s.core.table && id' !in s1.flights &&
            var s2 := Next(cfg, s1, Arrive(id'));
            && s2.flights[id].order == s2.flights[id'].order
            && s2.flights[id].order[0] == Pick(cfg, s.core, s.now)
  {
    hide Snapshot, Select, Others;
    StepKeepsReady(cfg, s, Arrive(id));
  }

  // ---------------------------------------------------------------------------
  // Until when
  // ---------------------------------------------------------------------------

  /** Nothing was recorded since `from`, or the trace of the latest record is there. */
  ghost predicate Since(before: Stats, after: Stats, from: real) {
    || after == before
    || (after.requests > before.requests &&
        (after.consecutiveFailures == 0 || (after.lastFailureAt.Some? && after.lastFailureAt.value >= from)))
  }

  lemma StepRecords(cfg: Config, s: Sys, step: Step, p: Name)
    requires Ready(cfg, s) && Enabled(s, step) && p in s.core.table
    ensures var s' := Next(cfg, s, step);
            s'.now >= s.now && p in s'.core.table && Since(s.core.table[p], s'.core.table[p], s.now)
  {
    hide Snapshot, Select, Label, Others, FallsBack, Retryable;
  }

  lemma {:induction false} EntriesSince(cfg: Config, states: seq<Sys>, steps: seq<Step>, i: nat, j: nat, p: Name)
    requires Execution(cfg, states, steps) && i <= j < |states| && p in cfg.providers
    ensures p in states[i].core.table && p in states[j].core.table && states[i].now <= states[j].now
    ensures Since(states[i].core.table[p], states[j].core.table[p], states[i].now)
    decreases j
  {
    hide Next, Published, Conserved;
    Conservation(cfg, states, steps, i);
    if i < j {
      EntriesSince(cfg, states, steps, i, j - 1, p);
      StepRecords(cfg, states[j - 1], steps[j - 1], p);
    }
  }

  /** From a half-open moment on, and for less than a cooldown, the breaker lets selections through exactly
      as long as no outcome is recorded: the first probe or fallback to return shuts or closes it. */
  lemma HalfOpenUntilRecorded(cfg: Config, states: seq<Sys>, steps: seq<Step>, i: nat, j: nat, p: Name)
    requires Execution(cfg, states, steps) && i <= j < |states| && p in cfg.providers
    requires p in states[i].core.table && p in states[j].core.table && HalfOpen(cfg, states[i], p)
    requires states[j].now < states[i].now + cfg.cooldown
    ensures HalfOpen(cfg, states[j], p) <==> states[j].core.table[p] == states[i].core.table[p]
  {
    hide Execution;
    EntriesSince(cfg, states, steps, i, j, p);
  }

  /** Behind an open breaker a selection comes only once it is half-open, if somebody else would do. */
  lemma PickedIsHalfOpen(cfg: Config, states: seq<Sys>, steps: seq<Step>, j: nat, p: Name)
    requires Execution(cfg, states, steps) && j < |states| && p in cfg.providers
    requires Ready(cfg, states[j]) && Pick(cfg, states[j].core, states[j].now) == p
    requires Open(states[j].core.table[p])
    requires exists q :: q in cfg.providers && states[j].core.table[q].Available(states[j].now, cfg.cooldown)
    ensures HalfOpen(cfg, states[j], p)
  {
    hide Next, Execution, Stats.Score, Select;
    var k := SelectionCorrect(cfg.providers, states[j].core.table, states[j].now, cfg.cooldown);
    OpenIsTried(cfg, states, steps, j, p);
    assert Promised(cfg.providers, states[j].core.table, states[j].now, cfg.cooldown, k);
    assert Eligible(cfg.providers, states[j].core.table, states[j].now, cfg.cooldown, p);
  }

  /** Two selections of a provider, the later one with an open breaker though somebody is available, are a
      cooldown apart unless nothing was recorded of the provider in between. */
  lemma CloseProbesAreUnrecorded(cfg: Config, states: seq<Sys>, steps: seq<Step>, i: nat, j: nat, p: Name)
    requires Execution(cfg, states, steps) && i < j < |steps| && steps[i].Arrive? && steps[j].Arrive?
    requires Ready(cfg, states[i]) && Pick(cfg, states[i].core, states[i].now) == p
    requires Ready(cfg, states[j]) && Pick(cfg, states[j].core, states[j].now) == p
    requires Open(states[j].core.table[p])
    requires exists q :: q in cfg.providers && states[j].core.table[q].Available(states[j].now, cfg.cooldown)
    ensures HalfOpen(cfg, states[j], p)
    ensures states[j].now < states[i].now + cfg.cooldown ==> states[j].core.table[p] == states[i].core.table[p]
  {
    assert |states| == |steps| + 1;
    hide Execution, Next, Pick;
    PickedIsHalfOpen(cfg, states, steps, j, p);
    EntriesSince(cfg, states, steps, i, j, p);
  }

  lemma {:induction false} OpenIsTried(cfg: Config, states: seq<Sys>, steps: seq<Step>, j: nat, p: Name)
    requires Execution(cfg, states, steps) && j < |states| && p in cfg.providers && p in states[j].core.table
    ensures states[j].core.table[p].consecutiveFailures <= states[j].core.table[p].requests
  {
    hide Next;
    if j == 0 {
      FreshIsTried(cfg, states[0].now, p);
    } else {
      assert p in states[j - 1].core.table;
      OpenIsTried(cfg, states, steps, j - 1, p);
      StepKeepsTried(cfg, states[j - 1], steps[j - 1], p);
    }
  }

  lemma FreshIsTried(cfg: Config, now: real, p: Name)
    requires p in cfg.providers
    ensures var table := Init(cfg, now).core.table;
            p in table && table[p].consecutiveFailures <= table[p].requests
  {
    hide Snapshot;
  }

  lemma StepKeepsTried(cfg: Config, s: Sys, step: Step, p: Name)
    requires Ready(cfg, s) && Enabled(s, step) && p in s.core.table
    requires s.core.table[p].consecutiveFailures <= s.core.table[p].requests
    ensures var table := Next(cfg, s, step).core.table;
            p in table && table[p].consecutiveFailures <= table[p].requests
  {
    hide Snapshot, Select, Label, Others, FallsBack, Retryable;
  }

  // ---------------------------------------------------------------------------
  // How many
  // ---------------------------------------------------------------------------

  /** No attempt on `p` succeeds from step `i` to step `j`. */
  ghost predicate NeverAnswers(states: seq<Sys>, steps: seq<Step>, i: nat, j: nat, p: Name)
    requires j <= |steps| < |states|
  {
    forall k | i <= k < j && steps[k].Return? && steps[k].result.Ok? && steps[k].id in states[k].flights ::
      !states[k].flights[steps[k].id].At(p)
  }

  /** Whenever a call arrives from step `i` to step `j`, some provider is available. */
  ghost predicate SomeoneAvailable(cfg: Config, states: seq<Sys>, steps: seq<Step>, i: nat, j: nat)
    requires j <= |steps| < |states|
  {
    forall k | i <= k < j && steps[k].Arrive? ::
      exists q :: q in cfg.providers && q in states[k].core.table &&
                  states[k].core.table[q].Available(states[k].now, cfg.cooldown)
  }

  lemma StepKeepsOpen(cfg: Config, s: Sys, step: Step, p: Name)
    requires Ready(cfg, s) && Enabled(s, step) && p in s.core.table && Open(s.core.table[p])
    requires step.Return? && step.result.Ok? ==> !s.flights[step.id].At(p)
    ensures var s' := Next(cfg, s, step); p in s'.core.table && Open(s'.core.table[p])
  {
    hide Snapshot, Select, Label, Others, FallsBack, Retryable;
  }

  lemma {:induction false} StaysOpen(cfg: Config, states: seq<Sys>, steps: seq<Step>, i: nat, j: nat, p: Name)
    requires Execution(cfg, states, steps) && i <= j < |states| && p in cfg.providers
    requires p in states[i].core.table && Open(states[i].core.table[p]) && NeverAnswers(states, steps, i, j, p)
    ensures p in states[j].core.table && Open(states[j].core.table[p])
    decreases j
  {
    hide Next;
    if i < j {
      StaysOpen(cfg, states, steps, i, j - 1, p);
      StepKeepsOpen(cfg, states[j - 1], steps[j - 1], p);
    }
  }

  function Selections(s: Sys, p: Name): nat {
    s.core.metrics.selected[p]
  }

  /** Only an arrival that picks `p` counts as a selection of it, and it leaves the statistics alone. */
  lemma StepSelects(cfg: Config, s: Sys, step: Step, p: Name)
    requires Ready(cfg, s) && Enabled(s, step)
    ensures var s' := Next(cfg, s, step);
            if step.Arrive? && Pick(cfg, s.core, s.now) == p then s'.core.table == s.core.table
            else Selections(s', p) == Selections(s, p)
  {
    hide Snapshot, Select, Label, Others, FallsBack, Retryable;
  }

  lemma StepFallsBack(cfg: Config, s: Sys, step: Step, p: Name)
    requires Ready(cfg, s) && Enabled(s, step)
    ensures FallbacksTo(cfg.providers, Next(cfg, s, step).core.metrics.fallbacks, p) >=
            FallbacksTo(cfg.providers, s.core.metrics.fallbacks, p)
  {
    hide Snapshot, Select, Label, Others, FallsBack, Retryable, FallbacksTo;
    if step.Return? && step.result.Err? {
      var f := s.flights[step.id];
      var next := NextProvider(f, step.result.error);
      if next.Some? {
        FallbackLands(cfg.providers, s.core.metrics.fallbacks, f.order[f.index], next.value, p);
      }
    }
  }

  lemma {:induction false} FallbacksGrow(cfg: Config, states: seq<Sys>, steps: seq<Step>, i: nat, j: nat, p: Name)
    requires Execution(cfg, states, steps) && i <= j < |states|
    ensures FallbacksTo(cfg.providers, states[j].core.metrics.fallbacks, p) >=
            FallbacksTo(cfg.providers, states[i].core.metrics.fallbacks, p)
    decreases j
  {
    hide Next, FallbacksTo;
    if i < j {
      FallbacksGrow(cfg, states, steps, i, j - 1, p);
      StepFallsBack(cfg, states[j - 1], steps[j - 1], p);
    }
  }

  /** While nothing is recorded of `p`, every selection of it is still in flight at it, or aborted. */
  lemma UnrecordedSelections(cfg: Config, states: seq<Sys>, steps: seq<Step>, i: nat, m: nat, p: Name)
    requires Execution(cfg, states, steps) && i <= m < |states| && p in cfg.providers
    requires p in states[i].core.table && p in states[m].core.table
    requires states[m].core.table[p] == states[i].core.table[p]
    ensures Selections(states[m], p) - Selections(states[i], p) <=
            |FlightsAt(states[m].flights, p)| + states[m].aborted[p] - states[i].aborted[p]
  {
    hide Execution, Next, FlightsAt, FallbacksTo, Balanced, TurnsAddUp, Published;
    Conservation(cfg, states, steps, i);
    Conservation(cfg, states, steps, m);
    assert TurnsAddUpAt(cfg, states[i], p) && TurnsAddUpAt(cfg, states[m], p);
    FallbacksGrow(cfg, states, steps, i, m, p);
  }

  /** Step `j` selects no provider whose breaker closed or shut since the half-open moment `i`. */
  lemma ShutIsNotSelected(cfg: Config, states: seq<Sys>, steps: seq<Step>, i: nat, j: nat, p: Name)
    requires Execution(cfg, states, steps) && i <= j < |steps| && p in cfg.providers
    requires p in states[i].core.table && HalfOpen(cfg, states[i], p)
    requires states[j].now < states[i].now + cfg.cooldown
    requires NeverAnswers(states, steps, i, j, p) && SomeoneAvailable(cfg, states, steps, i, j + 1)
    requires p in states[j + 1].core.table && states[j + 1].core.table[p] != states[i].core.table[p]
    ensures Selections(states[j + 1], p) == Selections(states[j], p)
  {
    assert Ready(cfg, states[j]) && Enabled(states[j], steps[j]) && states[j + 1] == Next(cfg, states[j], steps[j]);
    hide Execution, Next, Ready, Enabled, Pick, HalfOpen;
    StepSelects(cfg, states[j], steps[j], p);
    if steps[j].Arrive? && Pick(cfg, states[j].core, states[j].now) == p {
      StaysOpen(cfg, states, steps, i, j, p);
      PickedIsHalfOpen(cfg, states, steps, j, p);
      HalfOpenUntilRecorded(cfg, states, steps, i, j, p);
      assert false;
    }
  }

  lemma SizeOf(cfg: Config, states: seq<Sys>, steps: seq<Step>)
    requires Execution(cfg, states, steps)
    ensures |states| == |steps| + 1
  {
  }

  /** The last moment nothing was recorded of `p` since the half-open moment `i`; no selection comes after it. */
  lemma {:induction false} LastUnrecorded(
    cfg: Config, states: seq<Sys>, steps: seq<Step>, i: nat, j: nat, p: Name)
    returns (m: nat)
    requires Execution(cfg, states, steps) && i <= j < |states| && p in cfg.providers
    requires p in states[i].core.table && HalfOpen(cfg, states[i], p)
    requires states[j].now < states[i].now + cfg.cooldown
    requires NeverAnswers(states, steps, i, j, p) && SomeoneAvailable(cfg, states, steps, i, j)
    ensures i <= m <= j && p in states[m].core.table && states[m].core.table[p] == states[i].core.table[p]
    ensures Selections(states[j], p) == Selections(states[m], p)
    decreases j
  {
    hide Execution, HalfOpen, Selections, NeverAnswers, SomeoneAvailable, Since;
    SizeOf(cfg, states, steps);
    EntriesSince(cfg, states, steps, i, j, p);
    if states[j].core.table[p] == states[i].core.table[p] {
      m := j;
    } else {
      EntriesSince(cfg, states, steps, i, j - 1, p);
      EntriesSince(cfg, states, steps, j - 1, j, p);
      Shorter(cfg, states, steps, i, j, p);
      m := LastUnrecorded(cfg, states, steps, i, j - 1, p);
      ShutIsNotSelected(cfg, states, steps, i, j - 1, p);
    }
  }

  /** Within one cooldown of a half-open moment `i`, while `p` never answers and somebody is always available,
      the selections of `p` number at most its calls in flight at some moment `m` plus those aborted until
      then: `m` is the last moment nothing was recorded of `p`, and afterwards it is not selected at all. */
  lemma HalfOpenSelections(cfg: Config, states: seq<Sys>, steps: seq<Step>, i: nat, j: nat, p: Name)
    returns (m: nat)
    requires Execution(cfg, states, steps) && i <= j < |states| && p in cfg.providers
    requires p in states[i].core.table && HalfOpen(cfg, states[i], p)
    requires states[j].now < states[i].now + cfg.cooldown
    requires NeverAnswers(states, steps, i, j, p) && SomeoneAvailable(cfg, states, steps, i, j)
    ensures i <= m <= j && p in states[m].core.table && states[m].core.table[p] == states[i].core.table[p]
    ensures Selections(states[j], p) == Selections(states[m], p)
    ensures Selections(states[j], p) - Selections(states[i], p) <=
            |FlightsAt(states[m].flights, p)| + states[m].aborted[p] - states[i].aborted[p]
  {
    hide Execution, HalfOpen, FlightsAt, Selections, NeverAnswers, SomeoneAvailable, Since;
    m := LastUnrecorded(cfg, states, steps, i, j, p);
    UnrecordedSelections(cfg, states, steps, i, m, p);
  }

  lemma Shorter(cfg: Config, states: seq<Sys>, steps: seq<Step>, i: nat, j: nat, p: Name)
    requires i < j <= |steps| < |states|
    requires NeverAnswers(states, steps, i, j, p) && SomeoneAvailable(cfg, states, steps, i, j)
    ensures NeverAnswers(states, steps, i, j - 1, p) && SomeoneAvailable(cfg, states, steps, i, j - 1)
  {
  }

  // ---------------------------------------------------------------------------
  // It happens
  // ---------------------------------------------------------------------------

  /** A call that its first provider rejects for good. */
  lemma RejectedCall(cfg: Config, s: Sys) returns (steps: seq<Step>, s': Sys)
    requires Ready(cfg, s) && s.flights == map[]
    ensures Runs(Calls(cfg), s, steps, s') && Ready(cfg, s') && s'.flights == map[] && s'.now == s.now
    ensures var p := Pick(cfg, s.core, s.now); s'.core.table == s.core.table[p := s.core.table[p].AfterFailure(s.now)]
  {
    hide Snapshot, Select, Others, Runs, Stats.AfterFailure;
    var a, b := Arrive(0), Return(0, Err(Raised(AuthenticationError)));
    Takes(cfg, s, a);
    var s1 := Next(cfg, s, a);
    Takes(cfg, s1, b);
    s' := Next(cfg, s1, b);
    RunsChain(Calls(cfg), s, [a], s1, [b], s');
    steps := [a] + [b];
  }

  /** Three failures of the first of two providers and one of the second, then silence for a cooldown. */
  lemma BreakerOpens(cfg: Config, now: real, p: Name, q: Name) returns (steps: seq<Step>, s: Sys)
    requires ValidConfig(cfg) && cfg.providers == [p, q]
    ensures Runs(Calls(cfg), Init(cfg, now), steps, s) && Ready(cfg, s) && s.flights == map[]
    ensures s.core.table[p] == Stats(3, 0, 3, 0.0, 3, Some(now)) && s.core.table[q] == Stats(1, 0, 1, 0.0, 1, Some(now))
    ensures s.now == now + cfg.cooldown
  {
    hide Runs, Pick, Snapshot, Next;
    assert cfg.providers[0] != cfg.providers[1];
    var s0 := Init(cfg, now);
    Sequential.PicksFirst(cfg, s0.core, now, p, q);
    var a, s1 := RejectedCall(cfg, s0);
    Sequential.PicksSecond(cfg, s1.core, now, p, q);
    var b, s2 := RejectedCall(cfg, s1);
    Sequential.PicksFirst(cfg, s2.core, now, p, q);
    var c, s3 := RejectedCall(cfg, s2);
    Sequential.PicksFirst(cfg, s3.core, now, p, q);
    var d, s4 := RejectedCall(cfg, s3);
    var wait := Tick(cfg.cooldown);
    Takes(cfg, s4, wait);
    s := Waited(cfg, s4, cfg.cooldown);
    RunsChain(Calls(cfg), s0, a, s1, b, s2);
    RunsChain(Calls(cfg), s0, a + b, s2, c, s3);
    RunsChain(Calls(cfg), s0, a + b + c, s3, d, s4);
    RunsChain(Calls(cfg), s0, a + b + c + d, s4, [wait], s);
    steps := a + b + c + d + [wait];
  }

  lemma Waited(cfg: Config, s: Sys, d: Duration) returns (s': Sys)
    requires Ready(cfg, s)
    ensures s' == Next(cfg, s, Tick(d)) && s'.core == s.core && s'.flights == s.flights && s'.now == s.now + d
  {
    s' := Next(cfg, s, Tick(d));
  }

  lemma TwoArrivals(cfg: Config, s: Sys, p: Name) returns (s': Sys)
    requires Ready(cfg, s) && s.flights == map[] && Pick(cfg, s.core, s.now) == p
    ensures Runs(Calls(cfg), s, [Arrive(0)] + [Arrive(1)], s')
    ensures s'.core.table == s.core.table && s'.now == s.now
    ensures s'.flights.Keys == {0, 1} && s'.flights[0].At(p) && s'.flights[1].At(p)
  {
    ArrivalsAgree(cfg, s, 0, 1);
    hide Runs, Pick, Snapshot;
    var mid := Next(cfg, s, Arrive(0));
    Takes(cfg, s, Arrive(0));
    Takes(cfg, mid, Arrive(1));
    s' := Next(cfg, mid, Arrive(1));
    RunsChain(Calls(cfg), s, [Arrive(0)], mid, [Arrive(1)], s');
  }

  /** With any two providers and any settings, an execution ends in a state in which two calls probe the same
      provider behind an open breaker, though the other provider is available. */
  lemma TwoProbesInFlight(cfg: Config, now: real, p: Name, q: Name) returns (states: seq<Sys>, steps: seq<Step>)
    requires ValidConfig(cfg) && cfg.providers == [p, q]
    ensures Execution(cfg, states, steps)
    ensures var s := states[|steps|];
            && p in s.core.table && q in s.core.table
            && HalfOpen(cfg, s, p) && s.core.table[q].Available(s.now, cfg.cooldown)
            && s.flights.Keys == {0, 1} && s.flights[0].At(p) && s.flights[1].At(p)
  {
    hide Runs, Pick, Next, Snapshot;
    var a, before := BreakerOpens(cfg, now, p, q);
    Sequential.PicksFirst(cfg, before.core, before.now, p, q);
    var s := TwoArrivals(cfg, before, p);
    RunsChain(Calls(cfg), Init(cfg, now), a, before, [Arrive(0)] + [Arrive(1)], s);
    steps := a + ([Arrive(0)] + [Arrive(1)]);
    states := RunsVisit(Calls(cfg), Init(cfg, now), steps, s);
  }
}
