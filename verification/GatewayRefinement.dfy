/** A call made alone, as the class makes it, is one of the executions of the interleaved system. */
module GatewayRefinement {
  import opened Prelude
  import opened RouterSpec
  import opened GatewaySpec
  import opened GatewayConcurrent
  import opened StepSystems

  /** The interleaved calls as a system. */
  ghost function Calls(cfg: Config): System<Sys, Step> {
    System((s: Sys, step: Step) => Ready(cfg, s) && Enabled(s, step),
           (s: Sys, step: Step) => if Ready(cfg, s) && Enabled(s, step) then Next(cfg, s, step) else s)
  }

  lemma Takes(cfg: Config, s: Sys, step: Step)
    requires Ready(cfg, s) && Enabled(s, step)
    ensures Runs(Calls(cfg), s, [step], Next(cfg, s, step)) && Ready(cfg, Next(cfg, s, step))
  {
    StepKeepsReady(cfg, s, step);
    hide Next;
    RunsOne(Calls(cfg), s, step);
  }

  /** Call `id` is about to make attempt `k` of a turn that began with `core` at its start time. */
  ghost predicate InTurn(cfg: Config, s: Sys, id: nat, core: Core, script: Script, k: nat) {
    && Ready(cfg, s) && id in s.flights && s.flights[id].phase.Attempting? && s.flights[id].attempt == k
    && k <= LastAttempt(cfg.policy, script) && EndsAt(cfg.policy, script, LastAttempt(cfg.policy, script))
    && var f := s.flights[id];
    && s.core == core.(metrics := AfterRetries(cfg.policy, core.metrics, f.order[f.index], script, k))
    && s.now == f.startedAt + AttemptTime(cfg.policy, script, k) + BackoffTime(cfg.policy, k)
  }

  function Following(f: Flight): Option<Name> {
    if f.index + 1 < |f.order| then Some(f.order[f.index + 1]) else None
  }

  /** The turn of call `id` is over, the way the call on values says; `others` are the other calls. */
  ghost predicate TurnDone(
    cfg: Config, f: Flight, id: nat, others: map<nat, Flight>, core: Core, script: Script, s': Sys)
    requires ValidConfig(cfg) && f.index < |f.order| && f.order[f.index] in core.table
  {
    var ending := EndingOf(cfg.policy, script);
    && s'.core == AfterTurn(cfg, core, f.order[f.index], script, Following(f), f.startedAt)
    && s'.now == f.startedAt + ending.elapsed
    && s'.flights == if MovesOn(ending) && Following(f).Some?
                     then others[id := Flight(f.order, f.index + 1, 0, s'.now, Attempting)] else others
  }

  lemma DelayIsDuration(policy: Policy, k: nat)
    requires ValidPolicy(policy)
    ensures Delay(policy, k) >= 0.0
  {
    PowersGrow(k);
    assert policy.baseDelay * Pow2(k) > 0.0;
  }

  /** A failed attempt within the budget: it returns, the call backs off, and wakes for the next one. */
  lemma RetryExecutes(
    cfg: Config, s: Sys, id: nat, core: Core, script: Script, k: nat)
    returns (steps: seq<Step>, s': Sys)
    requires InTurn(cfg, s, id, core, script, k) && k < LastAttempt(cfg.policy, script)
    ensures Runs(Calls(cfg), s, steps, s') && InTurn(cfg, s', id, core, script, k + 1)
    ensures s'.flights == s.flights[id := s.flights[id].(attempt := k + 1)] && s'.aborted == s.aborted
  {
    hide WaitFor, LastAttempt, Label, Delay, Metrics.CountError, Metrics.CountRetry, OnSuccess, OnGiveUp, Runs;
    var seen := Seen(cfg.policy, script, k);
    assert FailsRetryably(cfg.policy, script, k);
    DelayIsDuration(cfg.policy, k);
    var a, b, c, d := Tick(seen.elapsed), Return(id, seen.result), Tick(Delay(cfg.policy, k)), Wake(id);
    Takes(cfg, s, a);
    var s1 := Next(cfg, s, a);
    Takes(cfg, s1, b);
    var s2 := Next(cfg, s1, b);
    Takes(cfg, s2, c);
    var s3 := Next(cfg, s2, c);
    Takes(cfg, s3, d);
    s' := Next(cfg, s3, d);
    RunsChain(Calls(cfg), s, [a], s1, [b], s2);
    RunsChain(Calls(cfg), s, [a] + [b], s2, [c], s3);
    RunsChain(Calls(cfg), s, [a] + [b] + [c], s3, [d], s');
    steps := [a] + [b] + [c] + [d];
  }

  lemma LastReturn(cfg: Config, s: Sys, id: nat, core: Core, script: Script, last: nat)
    requires ValidConfig(cfg) && Fits(cfg, core) && last == LastAttempt(cfg.policy, script)
    requires Ready(cfg, s) && id in s.flights && s.flights[id].attempt == last && EndsAt(cfg.policy, script, last)
    requires var f := s.flights[id];
             && s.core == core.(metrics := AfterRetries(cfg.policy, core.metrics, f.order[f.index], script, last))
             && s.now == f.startedAt + EndingOf(cfg.policy, script).elapsed
    ensures TurnDone(cfg, s.flights[id], id, s.flights - {id}, core, script,
                     OnReturn(cfg, s, id, Seen(cfg.policy, script, last).result))
  {
    hide WaitFor, LastAttempt, EndingOf, AfterTurn, Counted, RecordedSuccess, RecordedFailure, AfterRetries, EndsAt;
    hide OnReturn, FallsBack, Surfaced, AttemptTime, BackoffTime, Seen;
    var f := s.flights[id];
    EndingIs(cfg.policy, script, last);
    TurnIs(cfg, core, f.order[f.index], script, Following(f), f.startedAt, last);
    ReturnRecords(cfg, s, id, core, script, last);
  }

  /** The counters of the attempt that ends a retry loop. */
  lemma LastIsCounted(policy: Policy, m: Metrics, p: Name, script: Script, last: nat)
    requires ValidPolicy(policy) && EndsAt(policy, script, last)
    ensures var result := Seen(policy, script, last).result;
            Counted(policy, m, p, script, last) ==
            if result.Ok? then AfterRetries(policy, m, p, script, last).CountSuccess(p)
            else AfterRetries(policy, m, p, script, last).CountError(p, Label(result.error))
  {
    hide Seen, AfterRetries, Label, Metrics.CountSuccess, Metrics.CountError;
  }

  /** What the return records, on the counters of the retry loop. */
  lemma ReturnRecords(cfg: Config, s: Sys, id: nat, core: Core, script: Script, last: nat)
    requires Ready(cfg, s) && id in s.flights && s.flights[id].attempt == last && EndsAt(cfg.policy, script, last)
    requires var f := s.flights[id];
             s.core == core.(metrics := AfterRetries(cfg.policy, core.metrics, f.order[f.index], script, last))
    ensures var f, result := s.flights[id], Seen(cfg.policy, script, last).result;
            var p, s' := f.order[f.index], OnReturn(cfg, s, id, result);
            var counted := core.(metrics := Counted(cfg.policy, core.metrics, p, script, last));
            && p in core.table && s'.now == s.now
            && s'.core == (if result.Ok? then RecordedSuccess(cfg, counted, p, s.now - f.startedAt, s.now)
                           else RecordedFailure(cfg, counted, p, NextProvider(f, result.error), s.now))
            && s'.flights == if result.Err? && NextProvider(f, result.error).Some?
                             then (s.flights - {id})[id := Flight(f.order, f.index + 1, 0, s.now, Attempting)]
                             else s.flights - {id}
  {
    var seen := Seen(cfg.policy, script, last);
    assert seen.result.Ok? || !(Retryable(seen.result.error) && last < cfg.policy.maxRetries);
    var f := s.flights[id];
    LastIsCounted(cfg.policy, core.metrics, f.order[f.index], script, last);
    hide Seen, Label, RecordedSuccess, RecordedFailure, AfterRetries, EndsAt, NextProvider, Retryable, Counted;
    hide Metrics.CountSuccess, Metrics.CountError;
    Reinserted(s.flights, id, Flight(f.order, f.index + 1, 0, s.now, Attempting));
  }

  lemma Reinserted(flights: map<nat, Flight>, id: nat, f: Flight)
    ensures (flights - {id})[id := f] == flights[id := f]
  {
  }

  /** The attempt that ends the retry loop returns, and the turn is recorded. */
  lemma LastExecutes(cfg: Config, s: Sys, id: nat, core: Core, script: Script) returns (steps: seq<Step>, s': Sys)
    requires ValidConfig(cfg) && Fits(cfg, core)
    requires InTurn(cfg, s, id, core, script, LastAttempt(cfg.policy, script))
    ensures Runs(Calls(cfg), s, steps, s') && Ready(cfg, s') && s'.aborted == s.aborted
    ensures TurnDone(cfg, s.flights[id], id, s.flights - {id}, core, script, s')
  {
    var last := LastAttempt(cfg.policy, script);
    var seen := Seen(cfg.policy, script, last);
    EndingIs(cfg.policy, script, last);
    hide WaitFor, LastAttempt, EndingOf, AfterRetries, Runs, TurnDone, OnSuccess, OnGiveUp, OnRetry;
    var a, b := Tick(seen.elapsed), Return(id, seen.result);
    Takes(cfg, s, a);
    var s1 := Next(cfg, s, a);
    LastReturn(cfg, s1, id, core, script, last);
    Takes(cfg, s1, b);
    s' := Next(cfg, s1, b);
    RunsChain(Calls(cfg), s, [a], s1, [b], s');
    steps := [a] + [b];
  }

  lemma {:induction false} TurnExecutes(cfg: Config, s: Sys, id: nat, core: Core, script: Script, k: nat)
    returns (steps: seq<Step>, s': Sys)
    requires ValidConfig(cfg) && Fits(cfg, core) && InTurn(cfg, s, id, core, script, k)
    ensures Runs(Calls(cfg), s, steps, s') && Ready(cfg, s') && s'.aborted == s.aborted
    ensures TurnDone(cfg, s.flights[id], id, s.flights - {id}, core, script, s')
    decreases LastAttempt(cfg.policy, script) - k
  {
    hide Runs, AfterTurn, EndingOf, MovesOn, LastAttempt, AfterRetries, AttemptTime, BackoffTime;
    if k == LastAttempt(cfg.policy, script) {
      steps, s' := LastExecutes(cfg, s, id, core, script);
    } else {
      var a, mid := RetryExecutes(cfg, s, id, core, script, k);
      assert mid.flights - {id} == s.flights - {id};
      var b;
      b, s' := TurnExecutes(cfg, mid, id, core, script, k + 1);
      RunsChain(Calls(cfg), s, a, mid, b, s');
      steps := a + b;
    }
  }

  lemma TurnBegins(cfg: Config, s: Sys, id: nat, script: Script)
    requires Ready(cfg, s) && id in s.flights
    requires var f := s.flights[id]; f.phase.Attempting? && f.attempt == 0 && f.startedAt == s.now
    ensures InTurn(cfg, s, id, s.core, script, 0)
  {
    hide LastAttempt, EndsAt;
    LastAttemptEnds(cfg.policy, script, 0);
  }

  /** Call `id` is at the first attempt on the provider at `index` of its order. */
  lemma {:induction false} WalkExecutes(
    cfg: Config, s: Sys, id: nat, script: CallScript)
    returns (steps: seq<Step>, s': Sys)
    requires Ready(cfg, s) && id in s.flights
    requires var f := s.flights[id]; f.phase.Attempting? && f.attempt == 0 && f.startedAt == s.now
    ensures Runs(Calls(cfg), s, steps, s') && Ready(cfg, s')
    ensures var f := s.flights[id];
            Covers(f.order[f.index..], s.core.table) &&
            var end := CallFrom(cfg, s.core, f.order[f.index..], script, s.now);
            && s'.core == end.core && s'.now == end.now
            && s'.flights == s.flights - {id} && s'.aborted == s.aborted
    decreases |s.flights[id].order| - s.flights[id].index
  {
    hide Runs, AfterTurn, EndingOf, CallFrom, LastAttempt, InTurn, MovesOn;
    var f := s.flights[id];
    var order := f.order[f.index..];
    assert order[0] == f.order[f.index] && order[1..] == f.order[f.index + 1..];
    TurnBegins(cfg, s, id, script(order[0]));
    CallUnfolds(cfg, s.core, order, script, s.now);
    steps, s' := TurnExecutes(cfg, s, id, s.core, script(order[0]), 0);
    if id in s'.flights {
      assert s'.flights - {id} == s.flights - {id};
      var mid, a := s', steps;
      var b;
      b, s' := WalkExecutes(cfg, mid, id, script);
      RunsChain(Calls(cfg), s, a, mid, b, s');
      steps := a + b;
    }
  }

  /** Whatever else is in flight, running a call to its end without interruption is an execution of the
      interleaved system, and it leaves exactly the state, the clock and the result state of `Call`. */
  lemma CallIsExecution(cfg: Config, s: Sys, id: nat, script: CallScript) returns (steps: seq<Step>, s': Sys)
    requires Ready(cfg, s) && id !in s.flights
    ensures Runs(Calls(cfg), s, steps, s') && Ready(cfg, s')
    ensures var end := Call(cfg, s.core, script, s.now);
            s'.core == end.core && s'.now == end.now && s'.flights == s.flights && s'.aborted == s.aborted
  {
    hide Runs, CallFrom, Snapshot, Select, Others;
    var arrive := Arrive(id);
    Takes(cfg, s, arrive);
    var mid := Next(cfg, s, arrive);
    var f := mid.flights[id];
    assert f.order[0..] == f.order;
    var b;
    b, s' := WalkExecutes(cfg, mid, id, script);
    RunsChain(Calls(cfg), s, [arrive], mid, b, s');
    steps := [arrive] + b;
  }

  lemma {:induction false} RunsKeepInv(cfg: Config, s: Sys, steps: seq<Step>, s': Sys)
    requires Inv(cfg, s) && Runs(Calls(cfg), s, steps, s')
    ensures Inv(cfg, s')
    decreases |steps|
  {
    hide Next, Inv;
    if steps != [] {
      StepKeepsInv(cfg, s, steps[0]);
      RunsKeepInv(cfg, Next(cfg, s, steps[0]), steps[1..], s');
    }
  }

  /** Hence conservation and gauge agreement hold after every call of the gateway class too. */
  lemma CallKeepsBooks(cfg: Config, s: Sys, script: CallScript) returns (s': Sys)
    requires Inv(cfg, s) && s.flights == map[]
    ensures var end := Call(cfg, s.core, script, s.now); s'.core == end.core && s'.now == end.now
    ensures Inv(cfg, s') && s'.flights == map[] && s'.aborted == s.aborted
  {
    hide Call;
    var steps;
    steps, s' := CallIsExecution(cfg, s, 0, script);
    RunsKeepInv(cfg, s, steps, s');
  }
}
