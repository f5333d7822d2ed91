/** The gateway on values: what one provider attempt, one retry loop and one call amount to. */
module GatewaySpec {
  import opened Prelude
  import opened Texts
  import opened RouterSpec

  type Duration = d: real | d >= 0.0 witness 0.0

  datatype LLMResponse = LLMResponse(content: Text, model: string)

  /** The exception classes a provider may raise. */
  datatype ErrorKind =
    TimeoutError | RateLimitError | UnavailableError | AuthenticationError | ResponseError | GenericError

  /** Values of the `error_type` label. */
  datatype ErrorLabel = TimeoutLabel | RateLimitLabel | UnavailableLabel | AuthenticationLabel | ProviderErrorLabel

  /** What a provider would do if it were never interrupted. */
  datatype Reaction = Reaction(after: Duration, result: Result<LLMResponse, ErrorKind>)

  /** How an attempt can fail: the deadline passes, or the provider raises in time. */
  datatype Fault = DeadlinePassed | Raised(kind: ErrorKind)

  datatype Attempt = Attempt(elapsed: Duration, result: Result<LLMResponse, Fault>)

  datatype Policy = Policy(timeout: real, maxRetries: int, baseDelay: real, maxDelay: real)

  datatype PolicyError = NoProviders | BadTimeout | NegativeRetries | BadBaseDelay | BadMaxDelay | BaseAboveMax

  /** The constructor's checks, in its order. */
  function Rejection(providers: seq<Name>, policy: Policy): Option<PolicyError> {
    if providers == [] then Some(NoProviders)
    else if policy.timeout <= 0.0 then Some(BadTimeout)
    else if policy.maxRetries < 0 then Some(NegativeRetries)
    else if policy.baseDelay <= 0.0 then Some(BadBaseDelay)
    else if policy.maxDelay <= 0.0 then Some(BadMaxDelay)
    else if policy.baseDelay > policy.maxDelay then Some(BaseAboveMax)
    else None
  }

  predicate ValidPolicy(policy: Policy) {
    policy.timeout > 0.0 && policy.maxRetries >= 0 && 0.0 < policy.baseDelay <= policy.maxDelay
  }

  /** `asyncio.wait_for`: the reaction if it comes in time, else a timeout at the deadline. */
  function WaitFor(reaction: Reaction, timeout: real): Attempt
    requires timeout > 0.0
  {
    if reaction.after > timeout then Attempt(timeout, Err(DeadlinePassed))
    else match reaction.result
         case Ok(response) => Attempt(reaction.after, Ok(response))
         case Err(kind) => Attempt(reaction.after, Err(Raised(kind)))
  }

  predicate Retryable(f: Fault) {
    f == DeadlinePassed || f == Raised(RateLimitError) || f == Raised(UnavailableError)
  }

  /** The exception that leaves the retry loop. */
  function Surfaced(f: Fault): ErrorKind {
    if f.DeadlinePassed? then TimeoutError else f.kind
  }

  function Label(f: Fault): ErrorLabel {
    match Surfaced(f)
    case TimeoutError => TimeoutLabel
    case RateLimitError => RateLimitLabel
    case UnavailableError => UnavailableLabel
    case AuthenticationError => AuthenticationLabel
    case ResponseError => ProviderErrorLabel
    case GenericError => ProviderErrorLabel
  }

  /** The exceptions after which the gateway turns to the next provider. */
  predicate FallsBack(kind: ErrorKind) {
    kind == RateLimitError || kind == UnavailableError || kind == TimeoutError
  }

  function Pow2(k: nat): real {
    if k == 0 then 1.0 else 2.0 * Pow2(k - 1)
  }

  function Delay(policy: Policy, attempt: nat): real {
    var d := policy.baseDelay * Pow2(attempt);
    if d <= policy.maxDelay then d else policy.maxDelay
  }

  // ---------------------------------------------------------------------------
  // One provider's retry loop
  // ---------------------------------------------------------------------------

  /** Reactions of one provider to the attempts of one call. */
  type Script = nat -> Reaction

  function Seen(policy: Policy, script: Script, k: nat): Attempt
    requires ValidPolicy(policy)
  {
    WaitFor(script(k), policy.timeout)
  }

  predicate FailsRetryably(policy: Policy, script: Script, k: nat)
    requires ValidPolicy(policy)
  {
    var seen := Seen(policy, script, k);
    seen.result.Err? && Retryable(seen.result.error)
  }

  /** Attempt `last` is the one that ends the loop: all earlier ones failed retryably within the
      budget, and it either did not, or came when the budget was spent. */
  ghost predicate EndsAt(policy: Policy, script: Script, last: nat)
    requires ValidPolicy(policy)
  {
    && last <= policy.maxRetries
    && (forall k: nat | k < last :: FailsRetryably(policy, script, k))
    && (last == policy.maxRetries || !FailsRetryably(policy, script, last))
  }

  function LastAttempt(policy: Policy, script: Script, k: nat := 0): nat
    requires ValidPolicy(policy)
    decreases policy.maxRetries - k
  {
    if k < policy.maxRetries && FailsRetryably(policy, script, k) then LastAttempt(policy, script, k + 1) else k
  }

  /** Time spent inside the first `n` attempts. */
  function AttemptTime(policy: Policy, script: Script, n: nat): real
    requires ValidPolicy(policy)
  {
    if n == 0 then 0.0 else AttemptTime(policy, script, n - 1) + Seen(policy, script, n - 1).elapsed
  }

  /** Time slept after the first `n` attempts. */
  function BackoffTime(policy: Policy, n: nat): real {
    if n == 0 then 0.0 else BackoffTime(policy, n - 1) + Delay(policy, n - 1)
  }

  function Ended(result: Result<LLMResponse, Fault>): Result<LLMResponse, ErrorKind> {
    if result.Ok? then Ok(result.value) else Err(Surfaced(result.error))
  }

  /** A provider's part in a call: attempts made, time taken, what leaves the retry loop. */
  datatype Ending = Ending(attempts: nat, elapsed: real, result: Result<LLMResponse, ErrorKind>)

  function EndingOf(policy: Policy, script: Script): Ending
    requires ValidPolicy(policy)
  {
    var last := LastAttempt(policy, script);
    Ending(last + 1,
           AttemptTime(policy, script, last + 1) + BackoffTime(policy, last),
           Ended(Seen(policy, script, last).result))
  }

  lemma {:induction false} LastAttemptEnds(policy: Policy, script: Script, k: nat)
    requires ValidPolicy(policy) && k <= policy.maxRetries
    requires forall j: nat | j < k :: FailsRetryably(policy, script, j)
    ensures k <= LastAttempt(policy, script, k)
    ensures EndsAt(policy, script, LastAttempt(policy, script, k))
    decreases policy.maxRetries - k
  {
    if k < policy.maxRetries && FailsRetryably(policy, script, k) {
      LastAttemptEnds(policy, script, k + 1);
    }
  }

  /** The retry loop stops at exactly one attempt: the first that is final or out of budget. */
  lemma RetryLoopEnds(policy: Policy, script: Script)
    requires ValidPolicy(policy)
    ensures forall last: nat :: EndsAt(policy, script, last) <==> last == LastAttempt(policy, script)
  {
    LastAttemptEnds(policy, script, 0);
    var l := LastAttempt(policy, script);
    forall last: nat | EndsAt(policy, script, last)
      ensures last == l
    {
    }
  }

  lemma {:induction false} ElapsedIsDuration(policy: Policy, script: Script)
    requires ValidPolicy(policy)
    ensures EndingOf(policy, script).elapsed >= 0.0
  {
    TimesAreDurations(policy, script, LastAttempt(policy, script) + 1);
    TimesAreDurations(policy, script, LastAttempt(policy, script));
  }

  lemma {:induction false} TimesAreDurations(policy: Policy, script: Script, n: nat)
    requires ValidPolicy(policy)
    ensures AttemptTime(policy, script, n) >= 0.0 && BackoffTime(policy, n) >= 0.0
  {
    if n > 0 {
      TimesAreDurations(policy, script, n - 1);
      PowersGrow(n - 1);
      assert policy.baseDelay * Pow2(n - 1) > 0.0;
    }
  }

  lemma {:induction false} PowersGrow(k: nat)
    ensures Pow2(k) >= 1.0
  {
    if k > 0 {
      PowersGrow(k - 1);
    }
  }

  // ---------------------------------------------------------------------------
  // Metrics and the state a call works on
  // ---------------------------------------------------------------------------

  datatype Gauge = Gauge(
    requests: nat, successRate: real, errorRate: real, averageLatency: real,
    consecutiveFailures: nat, healthy: bool, score: real)

  /** A labelled counter is the multiset of the label values it was incremented with. */
  datatype Metrics = Metrics(
    requests: multiset<(Name, bool)>,
    errors: multiset<(Name, ErrorLabel)>,
    retries: multiset<(Name, ErrorLabel)>,
    fallbacks: multiset<(Name, Name)>,
    selected: multiset<Name>,
    gauges: map<Name, Gauge>)
  {
    function CountSuccess(p: Name): Metrics {
      this.(requests := requests + multiset{(p, true)})
    }

    function CountError(p: Name, kind: ErrorLabel): Metrics {
      this.(requests := requests + multiset{(p, false)}, errors := errors + multiset{(p, kind)})
    }

    function CountRetry(p: Name, kind: ErrorLabel): Metrics {
      this.(retries := retries + multiset{(p, kind)})
    }

    function CountSelected(p: Name): Metrics {
      this.(selected := selected + multiset{p})
    }

    function CountFallback(p: Name, next: Name): Metrics {
      this.(fallbacks := fallbacks + multiset{(p, next)})
    }
  }

  const NO_METRICS := Metrics(multiset{}, multiset{}, multiset{}, multiset{}, multiset{}, map[])

  datatype Config = Config(providers: seq<Name>, cooldown: real, policy: Policy)

  ghost predicate ValidConfig(cfg: Config) {
    cfg.providers != [] && Distinct(cfg.providers) && cfg.cooldown > 0.0 && ValidPolicy(cfg.policy)
  }

  datatype Core = Core(table: Table, metrics: Metrics)

  ghost predicate Fits(cfg: Config, core: Core) {
    forall p :: p in cfg.providers <==> p in core.table
  }

  function GaugeOf(s: Stats, now: real, cooldown: real): Gauge {
    Gauge(s.requests, s.SuccessRate(), s.ErrorRate(), s.AverageLatency(), s.consecutiveFailures,
          s.Available(now, cooldown), s.Score())
  }

  function Snapshot(table: Table, now: real, cooldown: real): map<Name, Gauge> {
    map p | p in table :: GaugeOf(table[p], now, cooldown)
  }

  function Publish(cfg: Config, core: Core, now: real): Core {
    core.(metrics := core.metrics.(gauges := core.metrics.gauges + Snapshot(core.table, now, cfg.cooldown)))
  }

  /** `published` is `before` with the gauges of the first `k` providers recomputed. */
  ghost predicate Refreshed(
    cfg: Config, before: map<Name, Gauge>, published: map<Name, Gauge>, table: Table, k: nat, now: real)
    requires k <= |cfg.providers| && Covers(cfg.providers, table)
  {
    && (forall p | p in published :: p in before || p in table)
    && (forall p | p in before && p !in table :: p in published && published[p] == before[p])
    && (forall i | 0 <= i < k ::
          cfg.providers[i] in published &&
          published[cfg.providers[i]] == GaugeOf(table[cfg.providers[i]], now, cfg.cooldown))
  }

  lemma RefreshOne(
    cfg: Config, before: map<Name, Gauge>, published: map<Name, Gauge>, table: Table, k: nat, now: real)
    requires k < |cfg.providers| && Covers(cfg.providers, table)
    requires Refreshed(cfg, before, published, table, k, now)
    ensures var p := cfg.providers[k];
            Refreshed(cfg, before, published[p := GaugeOf(table[p], now, cfg.cooldown)], table, k + 1, now)
  {
    hide GaugeOf;
    assert cfg.providers[k] in cfg.providers;
  }

  lemma OverlayIsSnapshot(
    cfg: Config, before: map<Name, Gauge>, published: map<Name, Gauge>, table: Table, now: real)
    requires forall p :: p in cfg.providers <==> p in table
    requires Refreshed(cfg, before, published, table, |cfg.providers|, now)
    ensures published == before + Snapshot(table, now, cfg.cooldown)
  {
    hide GaugeOf;
    forall p | p in table
      ensures p in published && published[p] == GaugeOf(table[p], now, cfg.cooldown)
    {
      var i :| 0 <= i < |cfg.providers| && cfg.providers[i] == p;
    }
  }

  function InitialCore(cfg: Config, now: real): Core {
    var table: Table := map p | p in cfg.providers :: FRESH;
    Core(table, NO_METRICS.(gauges := Snapshot(table, now, cfg.cooldown)))
  }

  // The stretches of code between two awaits.

  function Pick(cfg: Config, core: Core, now: real): (pick: Name)
    requires ValidConfig(cfg) && Fits(cfg, core)
    ensures pick in core.table
  {
    Select(cfg.providers, core.table, now, cfg.cooldown)
  }

  function OnSelect(cfg: Config, core: Core, now: real): Core
    requires ValidConfig(cfg) && Fits(cfg, core)
  {
    var m := core.metrics;
    Publish(cfg, core.(metrics := m.CountSelected(Pick(cfg, core, now))), now)
  }

  function OnRetry(core: Core, p: Name, kind: ErrorLabel): Core {
    core.(metrics := core.metrics.CountError(p, kind).CountRetry(p, kind))
  }

  function RecordedSuccess(cfg: Config, core: Core, p: Name, latency: real, now: real): Core
    requires p in core.table
  {
    Publish(cfg, core.(table := core.table[p := core.table[p].AfterSuccess(latency)]), now)
  }

  function FailedAt(cfg: Config, core: Core, p: Name, now: real): Core
    requires p in core.table
  {
    Publish(cfg, core.(table := core.table[p := core.table[p].AfterFailure(now)]), now)
  }

  /** `next` is the provider the call turns to, if it does. */
  function RecordedFailure(cfg: Config, core: Core, p: Name, next: Option<Name>, now: real): Core
    requires p in core.table
  {
    var failed := FailedAt(cfg, core, p, now);
    if next.None? then failed else failed.(metrics := failed.metrics.CountFallback(p, next.value))
  }

  function OnSuccess(cfg: Config, core: Core, p: Name, latency: real, now: real): Core
    requires p in core.table
  {
    RecordedSuccess(cfg, core.(metrics := core.metrics.CountSuccess(p)), p, latency, now)
  }

  function OnGiveUp(cfg: Config, core: Core, p: Name, kind: ErrorLabel, next: Option<Name>, now: real): Core
    requires p in core.table
  {
    RecordedFailure(cfg, core.(metrics := core.metrics.CountError(p, kind)), p, next, now)
  }

  // ---------------------------------------------------------------------------
  // One call, start to end
  // ---------------------------------------------------------------------------

  function Others(providers: seq<Name>, selected: Name): seq<Name> {
    if providers == [] then []
    else (if providers[0] == selected then [] else [providers[0]]) + Others(providers[1..], selected)
  }

  /** Selected first, the rest in configured order, whatever their availability. */
  function Ordered(providers: seq<Name>, selected: Name): seq<Name> {
    [selected] + Others(providers, selected)
  }

  lemma {:induction false} OthersIsFilter(providers: seq<Name>, selected: Name)
    requires Distinct(providers)
    ensures var others := Others(providers, selected);
            && Distinct(others)
            && |others| == |providers| - (if selected in providers then 1 else 0)
            && forall p :: p in others <==> p in providers && p != selected
  {
    if providers != [] {
      OthersIsFilter(providers[1..], selected);
      assert providers[0] !in providers[1..];
      assert forall p :: p in providers <==> p == providers[0] || p in providers[1..];
    }
  }

  lemma OrderIsPermutation(providers: seq<Name>, selected: Name)
    requires Distinct(providers) && selected in providers
    ensures var order := Ordered(providers, selected);
            && order[0] == selected && Distinct(order) && |order| == |providers|
            && forall p :: p in order <==> p in providers
  {
    OthersIsFilter(providers, selected);
  }

  type CallScript = Name -> Script

  /** The counters after the first `n` attempts failed and were retried. */
  function AfterRetries(policy: Policy, m: Metrics, p: Name, script: Script, n: nat): Metrics
    requires ValidPolicy(policy)
    requires forall k: nat | k < n :: FailsRetryably(policy, script, k)
  {
    if n == 0 then m
    else
      assert FailsRetryably(policy, script, n - 1);
      var kind := Label(Seen(policy, script, n - 1).result.error);
      AfterRetries(policy, m, p, script, n - 1).CountError(p, kind).CountRetry(p, kind)
  }

  datatype CallEnd = CallEnd(core: Core, now: real, result: Result<LLMResponse, ErrorKind>)

  predicate MovesOn(ending: Ending) {
    ending.result.Err? && FallsBack(ending.result.error)
  }

  /** The counters when the retry loop ends. */
  function Counted(policy: Policy, m: Metrics, p: Name, script: Script, last: nat): Metrics
    requires ValidPolicy(policy) && EndsAt(policy, script, last)
  {
    var retried := AfterRetries(policy, m, p, script, last);
    match Seen(policy, script, last).result
    case Ok(_) => retried.CountSuccess(p)
    case Err(fault) => retried.CountError(p, Label(fault))
  }

  /** One provider's turn at time `now`: its attempts, then the recording of how they ended. */
  function AfterTurn(cfg: Config, core: Core, p: Name, script: Script, next: Option<Name>, now: real): (after: Core)
    requires ValidConfig(cfg) && p in core.table
    ensures after.table == core.table[p :=
              if EndingOf(cfg.policy, script).result.Ok?
              then core.table[p].AfterSuccess(EndingOf(cfg.policy, script).elapsed)
              else core.table[p].AfterFailure(now + EndingOf(cfg.policy, script).elapsed)]
  {
    LastAttemptEnds(cfg.policy, script, 0);
    var ending := EndingOf(cfg.policy, script);
    var counted := core.(metrics := Counted(cfg.policy, core.metrics, p, script, LastAttempt(cfg.policy, script)));
    if ending.result.Ok? then RecordedSuccess(cfg, counted, p, ending.elapsed, now + ending.elapsed)
    else RecordedFailure(cfg, counted, p, if MovesOn(ending) then next else None, now + ending.elapsed)
  }

  function CallFrom(cfg: Config, core: Core, order: seq<Name>, script: CallScript, now: real): (end: CallEnd)
    requires ValidConfig(cfg) && order != [] && Covers(order, core.table)
    ensures end.core.table.Keys == core.table.Keys
    decreases |order|
  {
    var ending := EndingOf(cfg.policy, script(order[0]));
    var next := if |order| > 1 then Some(order[1]) else None;
    var after := AfterTurn(cfg, core, order[0], script(order[0]), next, now);
    if MovesOn(ending) && |order| > 1
    then CallFrom(cfg, after, order[1..], script, now + ending.elapsed)
    else CallEnd(after, now + ending.elapsed, ending.result)
  }

  function Call(cfg: Config, core: Core, script: CallScript, now: real): (end: CallEnd)
    requires ValidConfig(cfg) && Fits(cfg, core)
    ensures Fits(cfg, end.core)
  {
    var pick := Pick(cfg, core, now);
    OrderIsPermutation(cfg.providers, pick);
    CallFrom(cfg, OnSelect(cfg, core, now), Ordered(cfg.providers, pick), script, now)
  }

  // The same definitions, one step at a time.

  /** A call is the walk of `order` from the state the selection left. */
  lemma CallIsWalk(cfg: Config, core: Core, script: CallScript, now: real) returns (selected: Core, order: seq<Name>)
    requires ValidConfig(cfg) && Fits(cfg, core)
    ensures selected.table == core.table && selected.metrics.requests == core.metrics.requests
    ensures order != [] && order[0] == Pick(cfg, core, now)
    ensures Distinct(order) && |order| == |cfg.providers| && Covers(order, core.table)
    ensures Call(cfg, core, script, now) == CallFrom(cfg, selected, order, script, now)
  {
    hide CallFrom, Snapshot, Select, Others;
    var pick := Pick(cfg, core, now);
    selected, order := OnSelect(cfg, core, now), Ordered(cfg.providers, pick);
    OrderIsPermutation(cfg.providers, pick);
  }

  lemma CallUnfolds(cfg: Config, core: Core, order: seq<Name>, script: CallScript, now: real)
    requires ValidConfig(cfg) && order != [] && Covers(order, core.table)
    ensures var ending := EndingOf(cfg.policy, script(order[0]));
            var next := if |order| > 1 then Some(order[1]) else None;
            var after := AfterTurn(cfg, core, order[0], script(order[0]), next, now);
            CallFrom(cfg, core, order, script, now) ==
              if MovesOn(ending) && |order| > 1
              then CallFrom(cfg, after, order[1..], script, now + ending.elapsed)
              else CallEnd(after, now + ending.elapsed, ending.result)
  {
    hide AfterTurn, EndingOf, MovesOn;
  }

  lemma EndingIs(policy: Policy, script: Script, last: nat)
    requires ValidPolicy(policy) && EndsAt(policy, script, last)
    ensures last == LastAttempt(policy, script)
    ensures EndingOf(policy, script) ==
            Ending(last + 1, AttemptTime(policy, script, last + 1) + BackoffTime(policy, last),
                   Ended(Seen(policy, script, last).result))
  {
    hide AttemptTime, BackoffTime, WaitFor, LastAttempt, EndsAt;
    RetryLoopEnds(policy, script);
  }

  lemma TurnIs(cfg: Config, core: Core, p: Name, script: Script, next: Option<Name>, now: real, last: nat)
    requires ValidConfig(cfg) && p in core.table && EndsAt(cfg.policy, script, last)
    ensures var ending := EndingOf(cfg.policy, script);
            var counted := core.(metrics := Counted(cfg.policy, core.metrics, p, script, last));
            AfterTurn(cfg, core, p, script, next, now) ==
            if ending.result.Ok? then RecordedSuccess(cfg, counted, p, ending.elapsed, now + ending.elapsed)
            else RecordedFailure(cfg, counted, p, if MovesOn(ending) then next else None, now + ending.elapsed)
  {
    hide EndsAt, Counted, EndingOf, RecordedSuccess, RecordedFailure;
    EndingIs(cfg.policy, script, last);
  }

  // ---------------------------------------------------------------------------
  // What a call amounts to, without following its loops
  // ---------------------------------------------------------------------------

  /** `order[m]` is the provider whose ending is the call's: all before it ended transiently, and
      it either did not, or is the last one. */
  ghost predicate StopsAt(policy: Policy, order: seq<Name>, script: CallScript, m: nat)
    requires ValidPolicy(policy)
  {
    && m < |order|
    && (forall i | 0 <= i < m :: MovesOn(EndingOf(policy, script(order[i]))))
    && (m == |order| - 1 || !MovesOn(EndingOf(policy, script(order[m]))))
  }

  function TimeOf(policy: Policy, order: seq<Name>, script: CallScript, m: nat): real
    requires ValidPolicy(policy) && m <= |order|
  {
    if m == 0 then 0.0
    else TimeOf(policy, order, script, m - 1) + EndingOf(policy, script(order[m - 1])).elapsed
  }

  /** The statistics entry of `order[i]` once its turn is over. */
  function EntryAfter(cfg: Config, table: Table, order: seq<Name>, script: CallScript, now: real, i: nat): Stats
    requires ValidConfig(cfg) && i < |order| && order[i] in table
  {
    var ending := EndingOf(cfg.policy, script(order[i]));
    if ending.result.Ok? then table[order[i]].AfterSuccess(ending.elapsed)
    else table[order[i]].AfterFailure(now + TimeOf(cfg.policy, order, script, i + 1))
  }

  lemma {:induction false} TimeOfTail(policy: Policy, order: seq<Name>, script: CallScript, m: nat)
    requires ValidPolicy(policy) && 0 < m <= |order|
    ensures TimeOf(policy, order, script, m) ==
            EndingOf(policy, script(order[0])).elapsed + TimeOf(policy, order[1..], script, m - 1)
  {
    if m > 1 {
      TimeOfTail(policy, order, script, m - 1);
    }
  }

  lemma {:induction false} CallStops(cfg: Config, core: Core, order: seq<Name>, script: CallScript, now: real)
    returns (m: nat)
    requires ValidConfig(cfg) && order != [] && Covers(order, core.table)
    ensures StopsAt(cfg.policy, order, script, m)
    ensures CallFrom(cfg, core, order, script, now).result == EndingOf(cfg.policy, script(order[m])).result
    ensures CallFrom(cfg, core, order, script, now).now == now + TimeOf(cfg.policy, order, script, m + 1)
    decreases |order|
  {
    hide AfterTurn, EndingOf, CallFrom, MovesOn;
    CallUnfolds(cfg, core, order, script, now);
    var ending := EndingOf(cfg.policy, script(order[0]));
    if MovesOn(ending) && |order| > 1 {
      var rest := order[1..];
      var after := AfterTurn(cfg, core, order[0], script(order[0]), Some(order[1]), now);
      var m' := CallStops(cfg, after, rest, script, now + ending.elapsed);
      m := m' + 1;
      assert forall i | 1 <= i < |order| :: order[i] == rest[i - 1];
      TimeOfTail(cfg.policy, order, script, m + 1);
    } else {
      m := 0;
      assert TimeOf(cfg.policy, order, script, 1) == TimeOf(cfg.policy, order, script, 0) + ending.elapsed;
    }
  }

  /** Every provider up to the one the call stops at is recorded exactly once. */
  lemma {:induction false} CallRecords(
    cfg: Config, core: Core, order: seq<Name>, script: CallScript, now: real, m: nat, i: nat)
    requires ValidConfig(cfg) && order != [] && Distinct(order) && Covers(order, core.table)
    requires StopsAt(cfg.policy, order, script, m) && i <= m
    ensures order[i] in core.table
    ensures order[i] in CallFrom(cfg, core, order, script, now).core.table
    ensures CallFrom(cfg, core, order, script, now).core.table[order[i]] ==
            EntryAfter(cfg, core.table, order, script, now, i)
    decreases |order|
  {
    hide AfterTurn, EndingOf, CallFrom, MovesOn, Stats.AfterSuccess, Stats.AfterFailure;
    CallUnfolds(cfg, core, order, script, now);
    var p, rest := order[0], order[1..];
    var ending := EndingOf(cfg.policy, script(p));
    if m == 0 {
      assert TimeOf(cfg.policy, order, script, 1) == TimeOf(cfg.policy, order, script, 0) + ending.elapsed;
    } else {
      assert MovesOn(EndingOf(cfg.policy, script(order[0])));
      assert forall j | 1 <= j < |order| :: order[j] == rest[j - 1];
      var after := AfterTurn(cfg, core, p, script(p), Some(order[1]), now);
      assert CallFrom(cfg, core, order, script, now) == CallFrom(cfg, after, rest, script, now + ending.elapsed);
      if i > 0 {
        CallRecords(cfg, after, rest, script, now + ending.elapsed, m - 1, i - 1);
        TimeOfTail(cfg.policy, order, script, i + 1);
      } else {
        CallLeavesAlone(cfg, after, rest, script, now + ending.elapsed, m - 1, p);
        assert TimeOf(cfg.policy, order, script, 1) == TimeOf(cfg.policy, order, script, 0) + ending.elapsed;
      }
    }
  }

  /** A provider the call does not reach keeps its statistics. */
  lemma {:induction false} CallLeavesAlone(
    cfg: Config, core: Core, order: seq<Name>, script: CallScript, now: real, m: nat, p: Name)
    requires ValidConfig(cfg) && order != [] && Covers(order, core.table)
    requires StopsAt(cfg.policy, order, script, m)
    requires p in core.table && p !in order[..m + 1]
    ensures var after := CallFrom(cfg, core, order, script, now).core.table;
            after.Keys == core.table.Keys && after[p] == core.table[p]
    decreases |order|
  {
    hide AfterTurn, EndingOf, CallFrom, MovesOn, Stats.AfterSuccess, Stats.AfterFailure;
    CallUnfolds(cfg, core, order, script, now);
    assert order[0] in order[..m + 1];
    if m > 0 {
      assert MovesOn(EndingOf(cfg.policy, script(order[0])));
      var rest := order[1..];
      assert forall i | 1 <= i < |order| :: order[i] == rest[i - 1];
      assert order[..m + 1] == [order[0]] + rest[..m];
      var after := AfterTurn(cfg, core, order[0], script(order[0]), Some(order[1]), now);
      CallLeavesAlone(cfg, after, rest, script, now + EndingOf(cfg.policy, script(order[0])).elapsed, m - 1, p);
    }
  }

  /** The nested loops in closed form: there is exactly one provider a call can stop at, and it
      gives the result, the duration and every statistics entry. */
  lemma CallOutcome(cfg: Config, core: Core, order: seq<Name>, script: CallScript, now: real) returns (m: nat)
    requires ValidConfig(cfg) && order != [] && Distinct(order) && Covers(order, core.table)
    ensures m < |order| && forall m' :: StopsAt(cfg.policy, order, script, m') <==> m' == m
    ensures var end := CallFrom(cfg, core, order, script, now);
            && end.result == EndingOf(cfg.policy, script(order[m])).result
            && end.now == now + TimeOf(cfg.policy, order, script, m + 1)
            && (forall i | 0 <= i <= m ::
                  order[i] in core.table && order[i] in end.core.table &&
                  end.core.table[order[i]] == EntryAfter(cfg, core.table, order, script, now, i))
            && (forall p | p in core.table && p !in order[..m + 1] ::
                  p in end.core.table && end.core.table[p] == core.table[p])
  {
    hide CallFrom, EndingOf, EntryAfter, TimeOf;
    m := CallStops(cfg, core, order, script, now);
    forall i | 0 <= i <= m
      ensures order[i] in core.table && order[i] in CallFrom(cfg, core, order, script, now).core.table
      ensures CallFrom(cfg, core, order, script, now).core.table[order[i]] ==
              EntryAfter(cfg, core.table, order, script, now, i)
    {
      CallRecords(cfg, core, order, script, now, m, i);
    }
    forall p | p in core.table && p !in order[..m + 1]
      ensures var after := CallFrom(cfg, core, order, script, now).core.table; p in after && after[p] == core.table[p]
    {
      CallLeavesAlone(cfg, core, order, script, now, m, p);
    }
  }
}
