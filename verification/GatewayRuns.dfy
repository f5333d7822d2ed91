/** Properties of whole sequential runs: one call after the other, with any idle time between. */
module GatewayRuns {
  import opened Prelude
  import opened RouterSpec
  import opened GatewaySpec

  // ---------------------------------------------------------------------------
  // One call, seen from one provider
  // ---------------------------------------------------------------------------

  /** The statistics took one outcome of the call, the one its ending dictates. */
  ghost predicate Recorded(before: Stats, after: Stats, ending: Ending, from: real, to: real) {
    if ending.result.Ok? then after == before.AfterSuccess(ending.elapsed)
    else
      && after.lastFailureAt.Some? && from <= after.lastFailureAt.value <= to
      && after == before.AfterFailure(after.lastFailureAt.value)
  }

  lemma {:induction false} TimeOfMonotone(policy: Policy, order: seq<Name>, script: CallScript, i: nat, m: nat)
    requires ValidPolicy(policy) && i <= m <= |order|
    ensures 0.0 <= TimeOf(policy, order, script, i) <= TimeOf(policy, order, script, m)
    decreases m
  {
    hide EndingOf;
    if m > 0 {
      ElapsedIsDuration(policy, script(order[m - 1]));
      TimeOfMonotone(policy, order, script, if i < m then i else m - 1, m - 1);
    }
  }

  /** A call records the selected provider, and any other at most once. */
  lemma CallEffect(cfg: Config, core: Core, script: CallScript, now: real, p: Name)
    requires ValidConfig(cfg) && Fits(cfg, core) && p in core.table
    ensures var end := Call(cfg, core, script, now);
            && end.now >= now && p in end.core.table
            && (Recorded(core.table[p], end.core.table[p], EndingOf(cfg.policy, script(p)), now, end.now)
                || (p != Pick(cfg, core, now) && end.core.table[p] == core.table[p]))
  {
    hide CallFrom, Call, Pick, EndingOf, TimeOf, StopsAt;
    var selected, order := CallIsWalk(cfg, core, script, now);
    var m := CallOutcome(cfg, selected, order, script, now);
    TimeOfMonotone(cfg.policy, order, script, m + 1, m + 1);
    if p in order[..m + 1] {
      var i :| 0 <= i <= m && order[i] == p;
      TimeOfMonotone(cfg.policy, order, script, i + 1, m + 1);
    } else {
      assert order[0] in order[..m + 1];
    }
  }

  // ---------------------------------------------------------------------------
  // Runs
  // ---------------------------------------------------------------------------

  datatype Visit = Visit(idle: Duration, script: CallScript)

  datatype Selection = Selection(provider: Name, at: real, took: real)

  function Run(cfg: Config, core: Core, now: real, visits: seq<Visit>): (trace: seq<Selection>)
    requires ValidConfig(cfg) && Fits(cfg, core)
    ensures |trace| == |visits|
    decreases |visits|
  {
    if visits == [] then []
    else
      var at := now + visits[0].idle;
      var end := Call(cfg, core, visits[0].script, at);
      [Selection(Pick(cfg, core, at), at, end.now - at)] + Run(cfg, end.core, end.now, visits[1..])
  }

  lemma RunUnfolds(cfg: Config, core: Core, now: real, visits: seq<Visit>)
    requires ValidConfig(cfg) && Fits(cfg, core)
    ensures visits == [] ==> Run(cfg, core, now, visits) == []
    ensures visits != [] ==>
              var at := now + visits[0].idle;
              var end := Call(cfg, core, visits[0].script, at);
              Run(cfg, core, now, visits) ==
              [Selection(Pick(cfg, core, at), at, end.now - at)] + Run(cfg, end.core, end.now, visits[1..])
  {
    hide Call, Pick;
  }

  /** The table a run leaves behind. */
  function Afterwards(cfg: Config, core: Core, now: real, visits: seq<Visit>): (table: Table)
    requires ValidConfig(cfg) && Fits(cfg, core)
    ensures table.Keys == core.table.Keys
    decreases |visits|
  {
    if visits == [] then core.table
    else
      var end := Call(cfg, core, visits[0].script, now + visits[0].idle);
      Afterwards(cfg, end.core, end.now, visits[1..])
  }

  lemma CallKeepsSound(cfg: Config, core: Core, script: CallScript, now: real)
    requires ValidConfig(cfg) && Fits(cfg, core) && SoundTable(core.table, now)
    ensures SoundTable(Call(cfg, core, script, now).core.table, Call(cfg, core, script, now).now)
  {
    hide Call, Pick, EndingOf;
    var end := Call(cfg, core, script, now);
    forall p | p in end.core.table
      ensures Sound(end.core.table[p], end.now)
    {
      CallEffect(cfg, core, script, now, p);
      assert Sound(core.table[p], now);
      ElapsedIsDuration(cfg.policy, script(p));
    }
  }

  // ---------------------------------------------------------------------------
  // Exploration
  // ---------------------------------------------------------------------------

  ghost function UntriedSet(table: Table): set<Name> {
    set p | p in table && table[p].requests == 0
  }

  /** A call tries a new provider as long as there is one, however it ends. */
  lemma CallExplores(cfg: Config, core: Core, script: CallScript, now: real)
    requires ValidConfig(cfg) && Fits(cfg, core)
    ensures var after := UntriedSet(Call(cfg, core, script, now).core.table);
            && after <= UntriedSet(core.table)
            && (UntriedSet(core.table) != {} ==> after < UntriedSet(core.table))
  {
    hide Call, EndingOf, Best, Candidates;
    var end := Call(cfg, core, script, now);
    forall p | p in UntriedSet(end.core.table)
      ensures p in UntriedSet(core.table) && p != Pick(cfg, core, now)
    {
      CallEffect(cfg, core, script, now, p);
    }
    if q :| q in UntriedSet(core.table) {
      UnexploredIsFilter(cfg.providers, core.table);
      assert q in Unexplored(cfg.providers, core.table);
      var untried := Unexplored(cfg.providers, core.table);
      assert untried[0] in untried && Pick(cfg, core, now) == untried[0];
      assert untried[0] in UntriedSet(core.table) - UntriedSet(end.core.table);
    }
  }

  lemma StrictSubsetIsSmaller(a: set<Name>, b: set<Name>)
    requires a < b
    ensures |a| < |b|
  {
    assert !(b <= a);
    var x :| x in b && x !in a;
    assert a <= b - {x};
    SubsetIsNoLarger(a, b - {x});
  }

  lemma {:induction false} SubsetIsNoLarger(a: set<Name>, b: set<Name>)
    requires a <= b
    ensures |a| <= |b|
  {
    if x :| x in a {
      SubsetIsNoLarger(a - {x}, b - {x});
    }
  }

  /** As many calls as untried providers leave none untried. */
  lemma {:induction false} RunExploresAll(cfg: Config, core: Core, now: real, visits: seq<Visit>)
    requires ValidConfig(cfg) && Fits(cfg, core)
    requires |visits| >= |UntriedSet(core.table)|
    ensures UntriedSet(Afterwards(cfg, core, now, visits)) == {}
    decreases |visits|
  {
    hide Call;
    if visits != [] {
      var at := now + visits[0].idle;
      var end := Call(cfg, core, visits[0].script, at);
      CallExplores(cfg, core, visits[0].script, at);
      if UntriedSet(core.table) != {} {
        StrictSubsetIsSmaller(UntriedSet(end.core.table), UntriedSet(core.table));
      } else {
        assert UntriedSet(end.core.table) == {};
      }
      RunExploresAll(cfg, end.core, end.now, visits[1..]);
    }
  }

  // ---------------------------------------------------------------------------
  // A dead provider is probed rarely
  // ---------------------------------------------------------------------------

  /** Times at which `p` was the first choice. */
  function ProbesOf(trace: seq<Selection>, p: Name): seq<real> {
    if trace == [] then []
    else (if trace[0].provider == p then [trace[0].at] else []) + ProbesOf(trace[1..], p)
  }

  /** No attempt on `p` succeeds during the run. */
  ghost predicate NeverAnswers(cfg: Config, visits: seq<Visit>, p: Name)
    requires ValidConfig(cfg)
  {
    forall v, k: nat | v in visits :: Seen(cfg.policy, v.script(p), k).result.Err?
  }

  /** Whenever the run selects, some provider is available. */
  ghost predicate SomeoneAvailable(cfg: Config, core: Core, now: real, visits: seq<Visit>)
    requires ValidConfig(cfg) && Fits(cfg, core)
    decreases |visits|
  {
    visits == [] ||
    var at := now + visits[0].idle;
    var end := Call(cfg, core, visits[0].script, at);
    && (exists q :: q in cfg.providers && core.table[q].Available(at, cfg.cooldown))
    && SomeoneAvailable(cfg, end.core, end.now, visits[1..])
  }

  /** A first choice with an open breaker has served its cooldown. */
  lemma ProbeHasCooledDown(cfg: Config, core: Core, at: real, p: Name)
    requires ValidConfig(cfg) && Fits(cfg, core) && p in core.table && Sound(core.table[p], at)
    requires exists q :: q in cfg.providers && core.table[q].Available(at, cfg.cooldown)
    requires Pick(cfg, core, at) == p && core.table[p].consecutiveFailures >= FAILURE_THRESHOLD
    ensures at >= core.table[p].lastFailureAt.value + cfg.cooldown
  {
    hide Stats.Score;
    var i := SelectionCorrect(cfg.providers, core.table, at, cfg.cooldown);
    assert core.table[p].requests > 0;
    assert Eligible(cfg.providers, core.table, at, cfg.cooldown, p);
  }

  ghost predicate Spaced(probes: seq<real>, failures: nat, cooldown: real) {
    forall k | 1 <= k < |probes| && k + failures >= FAILURE_THRESHOLD :: probes[k] >= probes[k - 1] + cooldown
  }

  /** Probes from `from` on respect the breaker as `s` left it: those that find it open are a cooldown
      after the last failure and a cooldown apart. */
  ghost predicate RespectBreaker(probes: seq<real>, s: Stats, from: real, cooldown: real) {
    && Spaced(probes, s.consecutiveFailures, cooldown)
    && (forall k | 0 <= k < |probes| :: probes[k] >= from)
    && (probes != [] && s.consecutiveFailures >= FAILURE_THRESHOLD && s.lastFailureAt.Some? ==>
          probes[0] >= s.lastFailureAt.value + cooldown)
  }

  /** A failure in between, first choice or fallback, can only push the next probe later. */
  lemma OneMoreCall(
    probes: seq<real>, before: Stats, after: Stats, mine: bool, from: real, at: real, end: real, cooldown: real)
    requires cooldown > 0.0 && from <= at <= end
    requires Sound(before, at) && RespectBreaker(probes, after, end, cooldown)
    requires || (after == before && !mine)
             || (after.lastFailureAt.Some? && at <= after.lastFailureAt.value &&
                 after == before.AfterFailure(after.lastFailureAt.value))
    requires mine && before.consecutiveFailures >= FAILURE_THRESHOLD ==> at >= before.lastFailureAt.value + cooldown
    ensures RespectBreaker((if mine then [at] else []) + probes, before, from, cooldown)
  {
    if mine {
      var all := [at] + probes;
      assert forall k | 1 <= k < |all| :: all[k] == probes[k - 1];
    } else {
      assert [] + probes == probes;
    }
  }

  lemma {:induction false} ProbesAreSpaced(cfg: Config, core: Core, now: real, visits: seq<Visit>, p: Name)
    requires ValidConfig(cfg) && Fits(cfg, core) && p in core.table && SoundTable(core.table, now)
    requires NeverAnswers(cfg, visits, p) && SomeoneAvailable(cfg, core, now, visits)
    ensures RespectBreaker(ProbesOf(Run(cfg, core, now, visits), p), core.table[p], now, cfg.cooldown)
    decreases |visits|
  {
    hide Call, Pick, EndingOf, Run, RespectBreaker;
    RunUnfolds(cfg, core, now, visits);
    if visits == [] {
      NothingToRespect(core.table[p], now, cfg.cooldown);
    } else {
      var v, at := visits[0], now + visits[0].idle;
      var end := Call(cfg, core, v.script, at);
      assert SoundTable(core.table, at) by {
        assert forall q | q in core.table :: Sound(core.table[q], now);
      }
      CallKeepsSound(cfg, core, v.script, at);
      CallEffect(cfg, core, v.script, at, p);
      DeadEndingFails(cfg, v, p);
      ProbesAreSpaced(cfg, end.core, end.now, visits[1..], p);
      var mine := Pick(cfg, core, at) == p;
      if mine && core.table[p].consecutiveFailures >= FAILURE_THRESHOLD {
        ProbeHasCooledDown(cfg, core, at, p);
      }
      OneMoreCall(ProbesOf(Run(cfg, end.core, end.now, visits[1..]), p),
                  core.table[p], end.core.table[p], mine, now, at, end.now, cfg.cooldown);
      assert Run(cfg, core, now, visits)[1..] == Run(cfg, end.core, end.now, visits[1..]);
    }
  }

  lemma NothingToRespect(s: Stats, from: real, cooldown: real)
    ensures RespectBreaker([], s, from, cooldown)
  {
  }

  lemma DeadEndingFails(cfg: Config, v: Visit, p: Name)
    requires ValidConfig(cfg)
    requires forall k: nat :: Seen(cfg.policy, v.script(p), k).result.Err?
    ensures EndingOf(cfg.policy, v.script(p)).result.Err?
  {
  }

  lemma {:induction false} SpacedProbesSpan(probes: seq<real>, cooldown: real, m: nat)
    requires Spaced(probes, 0, cooldown) && 3 <= m <= |probes|
    ensures probes[m - 1] >= probes[2] + (m - 3) as real * cooldown
  {
    if m > 3 {
      SpacedProbesSpan(probes, cooldown, m - 1);
      assert (m - 3) as real * cooldown == (m - 4) as real * cooldown + cooldown;
    }
  }

  lemma {:induction false} ProbesComeFromTrace(trace: seq<Selection>, p: Name, until: real)
    requires forall s | s in trace :: s.at <= until
    ensures forall t | t in ProbesOf(trace, p) :: t <= until
  {
    if trace != [] {
      assert trace[0] in trace;
      ProbesComeFromTrace(trace[1..], p, until);
    }
  }

  lemma RatioAtLeast(k: real, span: real, c: real)
    requires c > 0.0 && k * c <= span
    ensures k <= span / c
  {
    var rest := span - k * c;
    assert span / c == (k * c + rest) / c == k + rest / c;
    assert rest / c >= 0.0;
  }

  lemma SpacedProbesAreFew(probes: seq<real>, cooldown: real, now: real, span: real)
    requires cooldown > 0.0 && span >= 0.0 && Spaced(probes, 0, cooldown)
    requires forall t | t in probes :: now <= t <= now + span
    ensures |probes| <= 3 + (span / cooldown).Floor
  {
    var m := |probes|;
    assert span / cooldown >= 0.0;
    if m > 3 {
      SpacedProbesSpan(probes, cooldown, m);
      assert probes[m - 1] in probes && probes[2] in probes;
      assert now <= probes[2];
      assert probes[m - 1] <= now + span;
      assert (m - 3) as real * cooldown <= span;
      RatioAtLeast((m - 3) as real, span, cooldown);
      assert (span / cooldown).Floor >= m - 3;
    }
  }

  /** A provider that never answers is the first choice at most 3 + floor(T / cooldown) times in any
      run whose selections all fall within T seconds, whatever else goes on. */
  lemma ProbeBound(cfg: Config, core: Core, now: real, visits: seq<Visit>, p: Name, span: real)
    requires ValidConfig(cfg) && Fits(cfg, core) && p in core.table && SoundTable(core.table, now)
    requires NeverAnswers(cfg, visits, p) && SomeoneAvailable(cfg, core, now, visits)
    requires span >= 0.0 && forall s | s in Run(cfg, core, now, visits) :: s.at <= now + span
    ensures |ProbesOf(Run(cfg, core, now, visits), p)| <= 3 + (span / cfg.cooldown).Floor
  {
    hide Run, SomeoneAvailable, NeverAnswers, Call;
    var probes := ProbesOf(Run(cfg, core, now, visits), p);
    ProbesAreSpaced(cfg, core, now, visits, p);
    ProbesComeFromTrace(Run(cfg, core, now, visits), p, now + span);
    SpacedProbesAreFew(probes, cfg.cooldown, now, span);
  }

  /** A request, after some idle time, whose every attempt is rejected at once. */
  function Rejected(idle: Duration): (v: Visit)
    ensures v.idle == idle
  {
    Visit(idle, (_: Name) => (_: nat) => Reaction(0.0, Err(AuthenticationError)))
  }

  const REJECTED := Rejected(0.0)

  lemma RejectedEnding(policy: Policy, idle: Duration, p: Name)
    requires ValidPolicy(policy)
    ensures EndingOf(policy, Rejected(idle).script(p)) == Ending(1, 0.0, Err(AuthenticationError))
    ensures forall k: nat :: Seen(policy, Rejected(idle).script(p), k).result.Err?
  {
    var script := Rejected(idle).script(p);
    assert !FailsRetryably(policy, script, 0);
    assert LastAttempt(policy, script) == 0;
    assert AttemptTime(policy, script, 1) == AttemptTime(policy, script, 0) + Seen(policy, script, 0).elapsed;
  }

  /** It takes no time and records one failure of the provider it picked. */
  lemma RejectedCall(cfg: Config, core: Core, idle: Duration, at: real)
    requires ValidConfig(cfg) && Fits(cfg, core)
    ensures var pick, end := Pick(cfg, core, at), Call(cfg, core, Rejected(idle).script, at);
            end.now == at && end.core.table == core.table[pick := core.table[pick].AfterFailure(at)]
  {
    hide Call, CallFrom, Pick, EndingOf, AfterTurn, Rejected;
    var selected, order := CallIsWalk(cfg, core, Rejected(idle).script, at);
    RejectedEnding(cfg.policy, idle, order[0]);
    CallUnfolds(cfg, selected, order, Rejected(idle).script, at);
  }

  lemma {:induction false} RejectionsProbe(cfg: Config, core: Core, now: real, n: nat, p: Name)
    requires ValidConfig(cfg) && Fits(cfg, core) && cfg.providers == [p]
    ensures var trace := Run(cfg, core, now, seq(n, _ => REJECTED));
            |ProbesOf(trace, p)| == n && forall s | s in trace :: s.at == now
    decreases n
  {
    hide Call, Run, Select;
    var visits := seq(n, _ => REJECTED);
    RunUnfolds(cfg, core, now, visits);
    if n > 0 {
      assert visits[1..] == seq(n - 1, _ => REJECTED);
      var end := Call(cfg, core, REJECTED.script, now);
      RejectedCall(cfg, core, 0.0, now);
      RejectionsProbe(cfg, end.core, end.now, n - 1, p);
      assert Run(cfg, core, now, visits)[1..] == Run(cfg, end.core, end.now, visits[1..]);
    }
  }

  /** The bound needs somebody else to be available: a lone provider that never answers is asked any number
      of times without any time passing, open breaker or not. */
  lemma LoneDeadProviderBreaksBound(
    cfg: Config, core: Core, now: real, p: Name, span: real)
    returns (visits: seq<Visit>)
    requires ValidConfig(cfg) && Fits(cfg, core) && cfg.providers == [p] && span >= 0.0
    ensures NeverAnswers(cfg, visits, p)
    ensures forall s | s in Run(cfg, core, now, visits) :: s.at <= now + span
    ensures |ProbesOf(Run(cfg, core, now, visits), p)| > 3 + (span / cfg.cooldown).Floor
  {
    hide Run, EndingOf, Seen;
    RatioAtLeast(0.0, span, cfg.cooldown);
    var n: nat := 4 + (span / cfg.cooldown).Floor;
    visits := seq(n, _ => REJECTED);
    RejectionsProbe(cfg, core, now, n, p);
    RejectedEnding(cfg.policy, 0.0, p);
  }

  lemma HopelessScore(s: Stats)
    requires s.requests > 0 && s.successes == 0
    ensures s.Score() == 2.0
  {
  }

  lemma PicksFirst(cfg: Config, core: Core, now: real, p: Name, q: Name)
    requires ValidConfig(cfg) && Fits(cfg, core) && cfg.providers == [p, q]
    requires core.table[p].requests == 0 ||
             (core.table[p].successes == core.table[q].successes == 0 && core.table[q].requests > 0 &&
              core.table[p].Available(now, cfg.cooldown))
    ensures Pick(cfg, core, now) == p
  {
    hide Stats.Score, Select, Stats.Available;
    var i := SelectionCorrect(cfg.providers, core.table, now, cfg.cooldown);
    if core.table[p].requests > 0 {
      HopelessScore(core.table[p]);
      HopelessScore(core.table[q]);
      assert Eligible(cfg.providers, core.table, now, cfg.cooldown, cfg.providers[0]);
    } else {
      assert !Explored(cfg.providers, core.table);
    }
  }

  lemma PicksSecond(cfg: Config, core: Core, now: real, p: Name, q: Name)
    requires ValidConfig(cfg) && Fits(cfg, core) && cfg.providers == [p, q]
    requires core.table[p].requests > 0 && core.table[q].requests == 0
    ensures Pick(cfg, core, now) == q
  {
    hide Stats.Score, Select, Stats.Available;
    var i := SelectionCorrect(cfg.providers, core.table, now, cfg.cooldown);
    assert !Explored(cfg.providers, core.table);
  }

  /** One rejected request at the front of a run that picks `pick`, as `p` sees it. */
  lemma RejectedFirst(cfg: Config, core: Core, now: real, idle: Duration, rest: seq<Visit>, pick: Name, p: Name)
    returns (after: Core)
    requires ValidConfig(cfg) && Fits(cfg, core) && Pick(cfg, core, now + idle) == pick
    requires core.table[pick].Available(now + idle, cfg.cooldown)
    ensures Fits(cfg, after) && after.table == core.table[pick := core.table[pick].AfterFailure(now + idle)]
    ensures var visits := [Rejected(idle)] + rest;
            && |ProbesOf(Run(cfg, core, now, visits), p)| ==
               |ProbesOf(Run(cfg, after, now + idle, rest), p)| + (if pick == p then 1 else 0)
            && (forall s | s in Run(cfg, core, now, visits) ::
                  s.at == now + idle || s in Run(cfg, after, now + idle, rest))
            && (SomeoneAvailable(cfg, after, now + idle, rest) ==> SomeoneAvailable(cfg, core, now, visits))
  {
    hide Call, Pick, Run, Stats.Available, Stats.AfterFailure, ProbesOf;
    var visits := [Rejected(idle)] + rest;
    RejectedCall(cfg, core, idle, now + idle);
    RunUnfolds(cfg, core, now, visits);
    assert visits[1..] == rest;
    after := Call(cfg, core, visits[0].script, now + idle).core;
    ProbesOfFirst(Selection(pick, now + idle, 0.0), Run(cfg, after, now + idle, rest), p);
  }

  lemma ProbesOfFirst(s: Selection, tail: seq<Selection>, p: Name)
    ensures |ProbesOf([s] + tail, p)| == |ProbesOf(tail, p)| + if s.provider == p then 1 else 0
  {
    assert ([s] + tail)[1..] == tail;
  }

  lemma {:induction false} ProbedEachCooldown(cfg: Config, core: Core, now: real, k: nat, p: Name, q: Name)
    requires ValidConfig(cfg) && Fits(cfg, core) && cfg.providers == [p, q]
    requires core.table[p].requests > 0 && core.table[p].lastFailureAt == Some(now)
    requires core.table[q].requests > 0 && core.table[p].successes == core.table[q].successes == 0
    ensures var visits := seq(k, _ => Rejected(cfg.cooldown));
            && SomeoneAvailable(cfg, core, now, visits)
            && |ProbesOf(Run(cfg, core, now, visits), p)| == k
            && forall s | s in Run(cfg, core, now, visits) :: s.at <= now + Times(k, cfg.cooldown)
    decreases k
  {
    hide Run, Pick, Rejected, SomeoneAvailable;
    var visits := seq(k, _ => Rejected(cfg.cooldown));
    if k == 0 {
      assert visits == [];
      RunEmpty(cfg, core, now);
    } else {
      var rest := seq(k - 1, _ => Rejected(cfg.cooldown));
      assert visits == [Rejected(cfg.cooldown)] + rest;
      assert cfg.providers[0] != cfg.providers[1];
      PicksFirst(cfg, core, now + cfg.cooldown, p, q);
      var after := RejectedFirst(cfg, core, now, cfg.cooldown, rest, p, p);
      ProbedEachCooldown(cfg, after, now + cfg.cooldown, k - 1, p, q);
      TimesOneMore(k - 1, cfg.cooldown);
      TimesGrow(k - 1, cfg.cooldown);
    }
  }

  lemma RunEmpty(cfg: Config, core: Core, now: real)
    requires ValidConfig(cfg) && Fits(cfg, core)
    ensures Run(cfg, core, now, []) == [] && SomeoneAvailable(cfg, core, now, [])
  {
  }

  lemma TimesGrow(n: nat, x: real)
    requires x >= 0.0
    ensures Times(n, x) >= 0.0
  {
  }

  /** Three failures of the first of two new providers and one of the second, all at once. */
  lemma FirstFour(cfg: Config, now: real, rest: seq<Visit>, p: Name, q: Name) returns (after: Core)
    requires ValidConfig(cfg) && cfg.providers == [p, q]
    ensures Fits(cfg, after)
    ensures after.table[p] == Stats(3, 0, 3, 0.0, 3, Some(now)) && after.table[q] == Stats(1, 0, 1, 0.0, 1, Some(now))
    ensures var one, start := [Rejected(0.0)], InitialCore(cfg, now);
            && var visits := one + (one + (one + (one + rest)));
            && |ProbesOf(Run(cfg, start, now, visits), p)| == 3 + |ProbesOf(Run(cfg, after, now, rest), p)|
            && (forall s | s in Run(cfg, start, now, visits) :: s.at == now || s in Run(cfg, after, now, rest))
            && (SomeoneAvailable(cfg, after, now, rest) ==> SomeoneAvailable(cfg, start, now, visits))
  {
    hide Run, Pick, Rejected, Snapshot, SomeoneAvailable, ProbesOf;
    assert cfg.providers[0] != cfg.providers[1];
    var c0, one := InitialCore(cfg, now), [Rejected(0.0)];
    PicksFirst(cfg, c0, now, p, q);
    var c1 := RejectedFirst(cfg, c0, now, 0.0, one + (one + (one + rest)), p, p);
    PicksSecond(cfg, c1, now, p, q);
    var c2 := RejectedFirst(cfg, c1, now, 0.0, one + (one + rest), q, p);
    after := TwoMore(cfg, c2, now, rest, p, q);
  }

  lemma TwoMore(cfg: Config, core: Core, now: real, rest: seq<Visit>, p: Name, q: Name) returns (after: Core)
    requires ValidConfig(cfg) && Fits(cfg, core) && cfg.providers == [p, q]
    requires core.table[p] == Stats(1, 0, 1, 0.0, 1, Some(now)) && core.table[q] == Stats(1, 0, 1, 0.0, 1, Some(now))
    ensures Fits(cfg, after)
    ensures after.table[p] == Stats(3, 0, 3, 0.0, 3, Some(now)) && after.table[q] == core.table[q]
    ensures var one := [Rejected(0.0)];
            && |ProbesOf(Run(cfg, core, now, one + (one + rest)), p)| == 2 + |ProbesOf(Run(cfg, after, now, rest), p)|
            && (forall s | s in Run(cfg, core, now, one + (one + rest)) ::
                  s.at == now || s in Run(cfg, after, now, rest))
            && (SomeoneAvailable(cfg, after, now, rest) ==> SomeoneAvailable(cfg, core, now, one + (one + rest)))
  {
    hide Run, Pick, Rejected, SomeoneAvailable, ProbesOf;
    assert cfg.providers[0] != cfg.providers[1];
    PicksFirst(cfg, core, now, p, q);
    var mid := RejectedFirst(cfg, core, now, 0.0, [Rejected(0.0)] + rest, p, p);
    PicksFirst(cfg, mid, now, p, q);
    after := RejectedFirst(cfg, mid, now, 0.0, rest, p, p);
  }

  /** The bound is attained: with any two providers and any span, a run in which the first one never answers,
      somebody is available at every selection, and the first one is picked exactly 3 + floor(T / cooldown)
      times within T seconds. */
  lemma ProbeBoundIsAttained(cfg: Config, now: real, p: Name, q: Name, span: real) returns (visits: seq<Visit>)
    requires ValidConfig(cfg) && cfg.providers == [p, q] && span >= 0.0
    ensures NeverAnswers(cfg, visits, p) && SomeoneAvailable(cfg, InitialCore(cfg, now), now, visits)
    ensures forall s | s in Run(cfg, InitialCore(cfg, now), now, visits) :: s.at <= now + span
    ensures |ProbesOf(Run(cfg, InitialCore(cfg, now), now, visits), p)| == 3 + (span / cfg.cooldown).Floor
  {
    hide Run, Rejected, Snapshot, SomeoneAvailable, NeverAnswers, InitialCore;
    RatioAtLeast(0.0, span, cfg.cooldown);
    var k: nat := (span / cfg.cooldown).Floor;
    FloorFits(span, cfg.cooldown, k);
    var rest, one := seq(k, _ => Rejected(cfg.cooldown)), [Rejected(0.0)];
    visits := one + (one + (one + (one + rest)));
    var after := FirstFour(cfg, now, rest, p, q);
    ProbedEachCooldown(cfg, after, now, k, p, q);
    RejectedNeverAnswers(cfg, visits, p);
  }

  lemma FloorFits(span: real, c: real, k: nat)
    requires c > 0.0 && k == (span / c).Floor
    ensures Times(k, c) <= span
  {
    var q := span / c;
    assert q * c == span && (q - k as real) * c >= 0.0;
    assert k as real * c == q * c - (q - k as real) * c;
  }

  lemma RejectedNeverAnswers(cfg: Config, visits: seq<Visit>, p: Name)
    requires ValidConfig(cfg) && forall v | v in visits :: v == Rejected(v.idle)
    ensures NeverAnswers(cfg, visits, p)
  {
    hide Rejected, Seen;
    forall v, k: nat | v in visits
      ensures Seen(cfg.policy, v.script(p), k).result.Err?
    {
      RejectedEnding(cfg.policy, v.idle, p);
    }
  }

  // ---------------------------------------------------------------------------
  // The exact price of exploring
  // ---------------------------------------------------------------------------

  /** Provider `p` answers every attempt after exactly `latency[p]` seconds, within the deadline. */
  ghost predicate Constant(cfg: Config, latency: map<Name, real>, visits: seq<Visit>)
    requires ValidConfig(cfg)
  {
    && (forall p | p in cfg.providers :: p in latency && 0.0 < latency[p] <= cfg.policy.timeout)
    && (forall v, p, k: nat | v in visits && p in cfg.providers ::
          v.script(p)(k).result.Ok? && v.script(p)(k).after == latency[p])
  }

  /** Statistics of a provider that answered `n` times, each time after `latency` seconds. */
  function Steady(n: nat, latency: real): Stats {
    Stats(n, n, 0, n as real * latency, 0, None)
  }

  /** The state of a constant run once its first `tried` providers, and no others, were asked. */
  ghost predicate SteadyTable(cfg: Config, latency: map<Name, real>, table: Table, tried: nat)
    requires ValidConfig(cfg)
  {
    && tried <= |cfg.providers|
    && (forall p :: p in cfg.providers <==> p in table)
    && (forall p | p in cfg.providers :: p in latency && latency[p] > 0.0)
    && (forall p | p in cfg.providers :: table[p] == Steady(table[p].requests, latency[p]))
    && (forall i | 0 <= i < |cfg.providers| :: table[cfg.providers[i]].requests > 0 <==> i < tried)
  }

  /** `i` is the earliest provider of least latency. */
  ghost predicate Quickest(cfg: Config, latency: map<Name, real>, i: nat)
    requires forall p | p in cfg.providers :: p in latency
  {
    && i < |cfg.providers|
    && (forall j | 0 <= j < |cfg.providers| :: latency[cfg.providers[i]] <= latency[cfg.providers[j]])
    && (forall j | 0 <= j < i :: latency[cfg.providers[i]] < latency[cfg.providers[j]])
  }

  lemma SteadyScore(n: nat, latency: real)
    requires n > 0 && latency > 0.0
    ensures Steady(n, latency).Score() == latency
  {
    assert (n as real * latency) / n as real == latency;
  }

  lemma SteadyAgain(n: nat, latency: real)
    ensures Steady(n, latency).AfterSuccess(latency) == Steady(n + 1, latency)
  {
    assert (n + 1) as real * latency == n as real * latency + latency;
  }

  /** While something is untried the next provider in line is asked, afterwards the quickest. */
  lemma SteadyPick(cfg: Config, latency: map<Name, real>, core: Core, tried: nat, at: real, q: nat)
    requires ValidConfig(cfg) && Fits(cfg, core) && SteadyTable(cfg, latency, core.table, tried)
    requires Quickest(cfg, latency, q)
    ensures Pick(cfg, core, at) == cfg.providers[if tried < |cfg.providers| then tried else q]
  {
    hide Stats.Score, Select;
    var i := SelectionCorrect(cfg.providers, core.table, at, cfg.cooldown);
    if tried < |cfg.providers| {
      assert core.table[cfg.providers[tried]].requests == 0;
    } else {
      assert Explored(cfg.providers, core.table);
      forall j | 0 <= j < |cfg.providers|
        ensures core.table[cfg.providers[j]].Score() == latency[cfg.providers[j]]
        ensures Eligible(cfg.providers, core.table, at, cfg.cooldown, cfg.providers[j])
      {
        SteadyScore(core.table[cfg.providers[j]].requests, latency[cfg.providers[j]]);
      }
      assert latency[cfg.providers[i]] <= latency[cfg.providers[q]];
      assert latency[cfg.providers[q]] <= latency[cfg.providers[i]];
    }
  }

  lemma ConstantEnding(cfg: Config, latency: map<Name, real>, visits: seq<Visit>, v: Visit, p: Name)
    requires ValidConfig(cfg) && Constant(cfg, latency, visits) && v in visits && p in cfg.providers
    ensures EndingOf(cfg.policy, v.script(p)).elapsed == latency[p]
    ensures EndingOf(cfg.policy, v.script(p)).result.Ok?
  {
    assert v.script(p)(0).after == latency[p];
    assert !FailsRetryably(cfg.policy, v.script(p), 0);
    assert LastAttempt(cfg.policy, v.script(p)) == 0;
    assert AttemptTime(cfg.policy, v.script(p), 1) == AttemptTime(cfg.policy, v.script(p), 0) + latency[p];
  }

  lemma ConstantCall(cfg: Config, latency: map<Name, real>, core: Core, visits: seq<Visit>, v: Visit, at: real)
    requires ValidConfig(cfg) && Fits(cfg, core) && Constant(cfg, latency, visits) && v in visits
    ensures var pick, end := Pick(cfg, core, at), Call(cfg, core, v.script, at);
            && end.now - at == latency[pick]
            && end.core.table == core.table[pick := core.table[pick].AfterSuccess(latency[pick])]
  {
    hide Call, Pick, EndingOf, AfterTurn;
    var selected, order := CallIsWalk(cfg, core, v.script, at);
    ConstantEnding(cfg, latency, visits, v, order[0]);
  }

  lemma SteadyStep(cfg: Config, latency: map<Name, real>, table: Table, after: Table, tried: nat, p: Name)
    requires ValidConfig(cfg) && SteadyTable(cfg, latency, table, tried) && p in table
    requires after == table[p := table[p].AfterSuccess(latency[p])]
    requires tried < |cfg.providers| ==> p == cfg.providers[tried]
    ensures SteadyTable(cfg, latency, after, if tried < |cfg.providers| then tried + 1 else tried)
  {
    SteadyAgain(table[p].requests, latency[p]);
  }

  function TotalTime(trace: seq<Selection>): real {
    if trace == [] then 0.0 else trace[0].took + TotalTime(trace[1..])
  }

  function SumOf(ps: seq<Name>, latency: map<Name, real>): real
    requires forall p | p in ps :: p in latency
  {
    if ps == [] then 0.0 else latency[ps[0]] + SumOf(ps[1..], latency)
  }

  function Times(n: nat, x: real): real {
    n as real * x
  }

  lemma TimesOneMore(n: nat, x: real)
    ensures Times(n + 1, x) == Times(n, x) + x
  {
  }

  /** The trace asks the providers from `tried` on once each, then only `q`, at their latencies. */
  ghost predicate Pays(ps: seq<Name>, latency: map<Name, real>, trace: seq<Selection>, tried: nat, q: nat)
    requires tried <= |ps| && q < |ps| && forall p | p in ps :: p in latency
  {
    var left := |ps| - tried;
    && |trace| >= left
    && TotalTime(trace) == SumOf(ps[tried..], latency) + Times(|trace| - left, latency[ps[q]])
    && (forall i | 0 <= i < |trace| :: trace[i].provider == if i < left then ps[tried + i] else ps[q])
  }

  lemma PaysNothing(ps: seq<Name>, latency: map<Name, real>, q: nat)
    requires q < |ps| && forall p | p in ps :: p in latency
    ensures Pays(ps, latency, [], |ps|, q)
  {
    assert Times(0, latency[ps[q]]) == 0.0;
  }

  lemma PaysOneMore(ps: seq<Name>, latency: map<Name, real>, s: Selection, rest: seq<Selection>, tried: nat, q: nat)
    requires tried <= |ps| && q < |ps| && forall p | p in ps :: p in latency
    requires s.provider == ps[if tried < |ps| then tried else q] && s.took == latency[s.provider]
    requires Pays(ps, latency, rest, if tried < |ps| then tried + 1 else tried, q)
    ensures Pays(ps, latency, [s] + rest, tried, q)
  {
    hide Times;
    var trace, left, least := [s] + rest, |ps| - tried, latency[ps[q]];
    assert trace[1..] == rest;
    assert TotalTime(trace) == s.took + TotalTime(rest);
    if tried < |ps| {
      assert ps[tried..][1..] == ps[tried + 1..];
      assert |trace| - left == |rest| - (left - 1);
    } else {
      TimesOneMore(|rest| - left, least);
    }
    assert forall i | 1 <= i < |trace| :: trace[i] == rest[i - 1];
  }

  lemma {:induction false} ConstantRun(
    cfg: Config, latency: map<Name, real>, core: Core, now: real, visits: seq<Visit>, tried: nat, q: nat)
    requires ValidConfig(cfg) && Fits(cfg, core) && SteadyTable(cfg, latency, core.table, tried)
    requires Constant(cfg, latency, visits) && Quickest(cfg, latency, q)
    requires |visits| >= |cfg.providers| - tried
    ensures Pays(cfg.providers, latency, Run(cfg, core, now, visits), tried, q)
    decreases |visits|
  {
    hide Call, Pick, Pays, Run;
    RunUnfolds(cfg, core, now, visits);
    if visits == [] {
      PaysNothing(cfg.providers, latency, q);
    } else {
      var v, at := visits[0], now + visits[0].idle;
      var end := Call(cfg, core, v.script, at);
      SteadyPick(cfg, latency, core, tried, at, q);
      ConstantCall(cfg, latency, core, visits, v, at);
      SteadyStep(cfg, latency, core.table, end.core.table, tried, Pick(cfg, core, at));
      hide SteadyTable;
      ConstantRun(cfg, latency, end.core, end.now, visits[1..],
                  if tried < |cfg.providers| then tried + 1 else tried, q);
      PaysOneMore(cfg.providers, latency, Selection(Pick(cfg, core, at), at, end.now - at),
                  Run(cfg, end.core, end.now, visits[1..]), tried, q);
    }
  }

  /** With n providers of constant latency, k >= n calls cost exactly the sum of all latencies plus
      (k - n) times the least one, and every call after the n-th asks the earliest quickest. */
  lemma ExplorationCost(cfg: Config, latency: map<Name, real>, now: real, visits: seq<Visit>, q: nat)
    requires ValidConfig(cfg) && Constant(cfg, latency, visits) && Quickest(cfg, latency, q)
    requires |visits| >= |cfg.providers|
    ensures var trace, n := Run(cfg, InitialCore(cfg, now), now, visits), |cfg.providers|;
            && TotalTime(trace) == SumOf(cfg.providers, latency) + (|visits| - n) as real * latency[cfg.providers[q]]
            && (forall i | 0 <= i < |trace| :: trace[i].provider == cfg.providers[if i < n then i else q])
  {
    hide Run, Snapshot, SumOf, TotalTime;
    ConstantRun(cfg, latency, InitialCore(cfg, now), now, visits, 0, q);
    assert cfg.providers[0..] == cfg.providers;
  }
}
