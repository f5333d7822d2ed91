/** What a call does, said on the reactions of the providers: which are retried, which lead to the next
    provider, what is counted, and how long it takes. */
module GatewayLaws {
  import opened Prelude
  import opened RouterSpec
  import opened GatewaySpec
  import RouterLaws

  // ---------------------------------------------------------------------------
  // One provider
  // ---------------------------------------------------------------------------

  /** Too late, or an in-time refusal that may pass. */
  predicate Passing(r: Reaction, timeout: real) {
    r.after > timeout || r.result == Err(RateLimitError) || r.result == Err(UnavailableError)
  }

  /** The error taxonomy of the retry loop. After k reactions that may pass, within the budget: an in-time answer
      is the result; an in-time error that will not pass is the result, the provider's own timeout included;
      and when the budget is spent, a late reaction is a timeout and any other error is itself. */
  lemma RetryLaw(policy: Policy, script: Script, k: nat)
    requires ValidPolicy(policy) && k <= policy.maxRetries
    requires forall i: nat | i < k :: Passing(script(i), policy.timeout)
    ensures var r, ending := script(k), EndingOf(policy, script);
            && (r.after <= policy.timeout && r.result.Ok? ==>
                  ending.attempts == k + 1 && ending.result == r.result)
            && (r.after <= policy.timeout && r.result.Err? &&
                r.result.error in {TimeoutError, AuthenticationError, ResponseError, GenericError} ==>
                  ending.attempts == k + 1 && ending.result == r.result)
            && (k == policy.maxRetries && r.after > policy.timeout ==>
                  ending.attempts == k + 1 && ending.result == Err(TimeoutError))
            && (k == policy.maxRetries && r.after <= policy.timeout && r.result.Err? &&
                r.result.error in {RateLimitError, UnavailableError} ==>
                  ending.attempts == k + 1 && ending.result == r.result)
  {
    assert forall i: nat | i < k :: FailsRetryably(policy, script, i);
    if k == policy.maxRetries || !Passing(script(k), policy.timeout) {
      assert EndsAt(policy, script, k);
      EndingIs(policy, script, k);
    }
    hide EndingOf;
  }

  /** Reaction `k` is the first that neither comes too late nor may pass. */
  ghost predicate FirstLasting(policy: Policy, script: Script, k: nat) {
    && (forall i: nat | i < k :: Passing(script(i), policy.timeout))
    && !Passing(script(k), policy.timeout)
  }

  /** The loop as a caller sees it: such a reaction within the budget is the result, unchanged. */
  lemma FirstLastingEnds(policy: Policy, script: Script, last: nat)
    requires ValidPolicy(policy) && EndsAt(policy, script, last)
    ensures EndingOf(policy, script).result == Ended(Seen(policy, script, last).result)
    ensures forall k: nat | k <= policy.maxRetries && FirstLasting(policy, script, k) ::
              last == k && EndingOf(policy, script).result == script(k).result
  {
    hide EndingOf, AttemptTime, BackoffTime, EndsAt, Seen;
    EndingIs(policy, script, last);
    forall k: nat | k <= policy.maxRetries && FirstLasting(policy, script, k)
      ensures last == k && EndingOf(policy, script).result == script(k).result
    {
      RetryLaw(policy, script, k);
      var r := script(k);
      if r.result.Err? {
        assert r.result.error != RateLimitError && r.result.error != UnavailableError;
        assert r.result.error in {TimeoutError, AuthenticationError, ResponseError, GenericError};
      }
    }
  }

  /** Time spent before the next attempt doubles until it reaches the cap, and stays there. */
  lemma DelayLaw(policy: Policy, k: nat)
    requires ValidPolicy(policy)
    ensures Delay(policy, 0) == policy.baseDelay
    ensures Delay(policy, k + 1) ==
            if 2.0 * Delay(policy, k) <= policy.maxDelay then 2.0 * Delay(policy, k) else policy.maxDelay
  {
    PowersGrow(k);
    var d := policy.baseDelay * Pow2(k);
    assert policy.baseDelay * Pow2(k + 1) == 2.0 * d;
  }

  /** How long an attempt is waited for. */
  function Waited(r: Reaction, timeout: real): real {
    if r.after <= timeout then r.after else timeout
  }

  /** A turn lasts the sum of its waits, cut at the timeout, and of the delays between them. */
  lemma {:induction false} TimesAreSums(policy: Policy, script: Script, n: nat)
    requires ValidPolicy(policy)
    ensures AttemptTime(policy, script, n) == Sum(seq(n, i requires 0 <= i => Waited(script(i), policy.timeout)))
    ensures BackoffTime(policy, n) == Sum(seq(n, i requires 0 <= i => Delay(policy, i)))
  {
    if n > 0 {
      TimesAreSums(policy, script, n - 1);
      var waits := seq(n, i requires 0 <= i => Waited(script(i), policy.timeout));
      var delays := seq(n, i requires 0 <= i => Delay(policy, i));
      assert waits[..n - 1] == seq(n - 1, i requires 0 <= i => Waited(script(i), policy.timeout));
      assert delays[..n - 1] == seq(n - 1, i requires 0 <= i => Delay(policy, i));
    }
  }

  lemma ElapsedLaw(policy: Policy, script: Script)
    requires ValidPolicy(policy)
    ensures var ending := EndingOf(policy, script);
            && ending.attempts >= 1
            && ending.elapsed == Sum(seq(ending.attempts, i requires 0 <= i => Waited(script(i), policy.timeout))) +
                                 Sum(seq(ending.attempts - 1, i requires 0 <= i => Delay(policy, i)))
  {
    hide AttemptTime, BackoffTime, Sum;
    var last := LastAttempt(policy, script);
    TimesAreSums(policy, script, last + 1);
    TimesAreSums(policy, script, last);
  }

  // ---------------------------------------------------------------------------
  // What a turn counts
  // ---------------------------------------------------------------------------

  /** The reaction is an error with this label. */
  predicate Shows(r: Reaction, timeout: real, kind: ErrorLabel) {
    match kind
    case TimeoutLabel => r.after > timeout || r.result == Err(TimeoutError)
    case RateLimitLabel => r.after <= timeout && r.result == Err(RateLimitError)
    case UnavailableLabel => r.after <= timeout && r.result == Err(UnavailableError)
    case AuthenticationLabel => r.after <= timeout && r.result == Err(AuthenticationError)
    case ProviderErrorLabel => r.after <= timeout && (r.result == Err(ResponseError) || r.result == Err(GenericError))
  }

  /** How many of the first `n` reactions are errors with this label. */
  function Showing(script: Script, timeout: real, kind: ErrorLabel, n: nat): nat {
    if n == 0 then 0 else Showing(script, timeout, kind, n - 1) + if Shows(script(n - 1), timeout, kind) then 1 else 0
  }

  /** An attempt that fails shows exactly one label, the one it is counted under; one that succeeds none. */
  lemma LabelLaw(r: Reaction, timeout: real)
    requires timeout > 0.0
    ensures var result := WaitFor(r, timeout).result;
            forall l :: Shows(r, timeout, l) <==> result.Err? && l == Label(result.error)
  {
  }

  ghost predicate SameButFor(m: Metrics, m': Metrics, p: Name) {
    && (forall q, ok: bool | q != p :: m'.requests[(q, ok)] == m.requests[(q, ok)])
    && (forall q, l: ErrorLabel | q != p :: m'.errors[(q, l)] == m.errors[(q, l)])
    && (forall q, l: ErrorLabel | q != p :: m'.retries[(q, l)] == m.retries[(q, l)])
  }

  lemma CountedError(m: Metrics, p: Name, kind: ErrorLabel)
    ensures var m' := m.CountError(p, kind);
            && SameButFor(m, m', p) && m'.fallbacks == m.fallbacks && m'.selected == m.selected
            && m'.retries == m.retries
            && m'.requests[(p, true)] == m.requests[(p, true)]
            && m'.requests[(p, false)] == m.requests[(p, false)] + 1
            && (forall l :: m'.errors[(p, l)] == m.errors[(p, l)] + if l == kind then 1 else 0)
  {
  }

  lemma CountedRetry(m: Metrics, p: Name, kind: ErrorLabel)
    ensures var m' := m.CountRetry(p, kind);
            && SameButFor(m, m', p) && m'.fallbacks == m.fallbacks && m'.selected == m.selected
            && m'.requests == m.requests && m'.errors == m.errors
            && (forall l :: m'.retries[(p, l)] == m.retries[(p, l)] + if l == kind then 1 else 0)
  {
  }

  lemma CountedSuccess(m: Metrics, p: Name)
    ensures var m' := m.CountSuccess(p);
            && SameButFor(m, m', p) && m'.fallbacks == m.fallbacks && m'.selected == m.selected
            && m'.errors == m.errors && m'.retries == m.retries
            && m'.requests[(p, true)] == m.requests[(p, true)] + 1
            && m'.requests[(p, false)] == m.requests[(p, false)]
  {
  }

  lemma SameOnward(m: Metrics, m': Metrics, m'': Metrics, p: Name)
    requires SameButFor(m, m', p) && SameButFor(m', m'', p)
    ensures SameButFor(m, m'', p)
  {
  }

  lemma {:induction false} RetriesLaw(policy: Policy, m: Metrics, p: Name, script: Script, n: nat)
    requires ValidPolicy(policy) && forall k: nat | k < n :: FailsRetryably(policy, script, k)
    ensures var m' := AfterRetries(policy, m, p, script, n);
            && SameButFor(m, m', p) && m'.fallbacks == m.fallbacks && m'.selected == m.selected
            && m'.requests[(p, true)] == m.requests[(p, true)]
            && m'.requests[(p, false)] == m.requests[(p, false)] + n
            && (forall l :: m'.errors[(p, l)] == m.errors[(p, l)] + Showing(script, policy.timeout, l, n))
            && (forall l :: m'.retries[(p, l)] == m.retries[(p, l)] + Showing(script, policy.timeout, l, n))
  {
    hide Label, WaitFor, Shows, Metrics.CountError, Metrics.CountRetry;
    if n == 0 {
      NothingChanged(m, p);
    } else {
      hide SameButFor;
      RetriesLaw(policy, m, p, script, n - 1);
      assert FailsRetryably(policy, script, n - 1);
      LabelLaw(script(n - 1), policy.timeout);
      var before, kind := AfterRetries(policy, m, p, script, n - 1), Label(Seen(policy, script, n - 1).result.error);
      var between := before.CountError(p, kind);
      CountedError(before, p, kind);
      CountedRetry(between, p, kind);
      SameOnward(m, before, between, p);
      SameOnward(m, between, between.CountRetry(p, kind), p);
    }
  }

  lemma NothingChanged(m: Metrics, p: Name)
    ensures SameButFor(m, m, p)
  {
  }

  /** Failed attempts of a turn. */
  function Failed(ending: Ending): int {
    ending.attempts - if ending.result.Ok? then 1 else 0
  }

  /** An ending after which the next provider is asked. */
  predicate Transient(ending: Ending) {
    || ending.result == Err(RateLimitError)
    || ending.result == Err(UnavailableError)
    || ending.result == Err(TimeoutError)
  }

  lemma CountedLast(policy: Policy, m: Metrics, p: Name, script: Script, last: nat)
    requires ValidPolicy(policy) && EndsAt(policy, script, last)
    ensures var m', ok := Counted(policy, m, p, script, last), Seen(policy, script, last).result.Ok?;
            var failed := if ok then last else last + 1;
            && SameButFor(m, m', p) && m'.fallbacks == m.fallbacks && m'.selected == m.selected
            && m'.requests[(p, true)] == m.requests[(p, true)] + (if ok then 1 else 0)
            && m'.requests[(p, false)] == m.requests[(p, false)] + failed
            && (forall l :: m'.errors[(p, l)] == m.errors[(p, l)] + Showing(script, policy.timeout, l, failed))
            && (forall l :: m'.retries[(p, l)] == m.retries[(p, l)] + Showing(script, policy.timeout, l, last))
  {
    hide Label, WaitFor, Shows, AfterRetries, FailsRetryably, SameButFor, Metrics.CountError, Metrics.CountSuccess;
    RetriesLaw(policy, m, p, script, last);
    LabelLaw(script(last), policy.timeout);
    var before, m' := AfterRetries(policy, m, p, script, last), Counted(policy, m, p, script, last);
    if Seen(policy, script, last).result.Ok? {
      CountedSuccess(before, p);
    } else {
      CountedError(before, p, Label(Seen(policy, script, last).result.error));
    }
    SameOnward(m, before, m', p);
  }

  /** The counters of a turn, from the reactions alone: each failed attempt is one error request under its own
      label, each but the last is a retry under it, an answer is one success request, a transient ending with
      a successor is one fallback from here to there, and no other provider's counters move. */
  lemma TurnLaw(cfg: Config, core: Core, p: Name, script: Script, next: Option<Name>, now: real)
    requires ValidConfig(cfg) && p in core.table
    ensures var m, m' := core.metrics, AfterTurn(cfg, core, p, script, next, now).metrics;
            var ending := EndingOf(cfg.policy, script);
            && ending.attempts >= 1 && Failed(ending) >= 0
            && SameButFor(m, m', p) && m'.selected == m.selected
            && m'.requests[(p, true)] == m.requests[(p, true)] + (if ending.result.Ok? then 1 else 0)
            && m'.requests[(p, false)] == m.requests[(p, false)] + Failed(ending)
            && (forall l :: m'.errors[(p, l)] ==
                            m.errors[(p, l)] + Showing(script, cfg.policy.timeout, l, Failed(ending)))
            && (forall l :: m'.retries[(p, l)] ==
                            m.retries[(p, l)] + Showing(script, cfg.policy.timeout, l, ending.attempts - 1))
            && m'.fallbacks == m.fallbacks +
                               (if Transient(ending) && next.Some? then multiset{(p, next.value)} else multiset{})
  {
    hide Snapshot, AttemptTime, BackoffTime, LastAttempt, EndsAt, Counted, Showing, SameButFor, WaitFor;
    RetryLoopEnds(cfg.policy, script);
    var last := LastAttempt(cfg.policy, script);
    CountedLast(cfg.policy, core.metrics, p, script, last);
    TurnIs(cfg, core, p, script, next, now, last);
    EndingIs(cfg.policy, script, last);
    hide AfterTurn, EndingOf, Seen;
    var counted := Counted(cfg.policy, core.metrics, p, script, last);
    assert SameButFor(core.metrics, AfterTurn(cfg, core, p, script, next, now).metrics, p) by {
      GaugesDoNotCount(core.metrics, counted, AfterTurn(cfg, core, p, script, next, now).metrics, p);
    }
  }

  lemma GaugesDoNotCount(m: Metrics, counted: Metrics, m': Metrics, p: Name)
    requires SameButFor(m, counted, p)
    requires m'.requests == counted.requests && m'.errors == counted.errors && m'.retries == counted.retries
    ensures SameButFor(m, m', p)
  {
  }

  // ---------------------------------------------------------------------------
  // What a call does
  // ---------------------------------------------------------------------------

  /** The fallbacks of a call that stops at the `m`-th provider of its order. */
  function Hops(order: seq<Name>, m: nat): multiset<(Name, Name)>
    requires m < |order|
  {
    if m == 0 then multiset{} else Hops(order, m - 1) + multiset{(order[m - 1], order[m])}
  }

  lemma {:induction false} HopsOfTail(order: seq<Name>, m: nat)
    requires 0 < m < |order|
    ensures Hops(order, m) == multiset{(order[0], order[1])} + Hops(order[1..], m - 1)
  {
    if m > 1 {
      HopsOfTail(order, m - 1);
    }
  }

  /** Responses counted for a provider, successes and errors. */
  function Asked(m: Metrics, p: Name): nat {
    m.requests[(p, true)] + m.requests[(p, false)]
  }

  /** `order[m]` ends the call: those before it end transiently, and it does not, or is the last. */
  ghost predicate Ends(policy: Policy, order: seq<Name>, script: CallScript, m: nat)
    requires ValidPolicy(policy)
  {
    && m < |order|
    && (forall i | 0 <= i < m :: Transient(EndingOf(policy, script(order[i]))))
    && (m == |order| - 1 || !Transient(EndingOf(policy, script(order[m]))))
  }

  /** From `before` to `after`, each provider up to the `m`-th was asked as often as its turn has attempts, and
      nobody else was. */
  ghost predicate AskedUpTo(
    policy: Policy, order: seq<Name>, script: CallScript, m: nat, before: Metrics, after: Metrics)
    requires ValidPolicy(policy)
  {
    && (forall i | 0 <= i < |order| ::
          Asked(after, order[i]) ==
          Asked(before, order[i]) + if i <= m then EndingOf(policy, script(order[i])).attempts else 0)
    && (forall p | p !in order :: Asked(after, p) == Asked(before, p))
  }

  /** Only `p` was asked, in one turn. */
  ghost predicate OneTurn(policy: Policy, script: CallScript, p: Name, before: Metrics, after: Metrics)
    requires ValidPolicy(policy)
  {
    && Asked(after, p) == Asked(before, p) + EndingOf(policy, script(p)).attempts
    && (forall q | q != p :: Asked(after, q) == Asked(before, q))
  }

  lemma FirstIsAsked(policy: Policy, order: seq<Name>, script: CallScript, before: Metrics, after: Metrics)
    requires ValidPolicy(policy) && order != [] && Distinct(order) && OneTurn(policy, script, order[0], before, after)
    ensures AskedUpTo(policy, order, script, 0, before, after)
  {
    hide EndingOf, Asked;
  }

  lemma RestIsAsked(
    policy: Policy, order: seq<Name>, script: CallScript, m: nat, before: Metrics, mid: Metrics, after: Metrics)
    requires ValidPolicy(policy) && order != [] && Distinct(order) && OneTurn(policy, script, order[0], before, mid)
    requires m > 0 && AskedUpTo(policy, order[1..], script, m - 1, mid, after)
    ensures AskedUpTo(policy, order, script, m, before, after)
  {
    hide EndingOf, Asked;
    var rest := order[1..];
    assert order[0] !in rest;
    forall i | 0 <= i < |order|
      ensures Asked(after, order[i]) ==
              Asked(before, order[i]) + if i <= m then EndingOf(policy, script(order[i])).attempts else 0
    {
      if i > 0 {
        assert order[i] == rest[i - 1] && order[i] != order[0];
      }
    }
    forall p | p !in order
      ensures Asked(after, p) == Asked(before, p)
    {
      assert p != order[0] && p !in rest;
    }
  }

  /** The next provider is asked exactly after a rate limit, an unavailable provider or a timeout; any other
      ending is the call's at once. Each provider up to the last one asked is asked as often as its turn has
      attempts, nobody else is asked, and each step from one to the next is one fallback. */
  lemma {:induction false} CallLaw(
    cfg: Config, core: Core, order: seq<Name>, script: CallScript, now: real, m: nat)
    requires ValidConfig(cfg) && order != [] && Distinct(order) && Covers(order, core.table)
    requires Ends(cfg.policy, order, script, m)
    ensures var end := CallFrom(cfg, core, order, script, now);
            && end.result == EndingOf(cfg.policy, script(order[m])).result
            && AskedUpTo(cfg.policy, order, script, m, core.metrics, end.core.metrics)
            && end.core.metrics.fallbacks == core.metrics.fallbacks + Hops(order, m)
            && end.core.metrics.selected == core.metrics.selected
    decreases |order|
  {
    hide AfterTurn, EndingOf, CallFrom, MovesOn, AskedUpTo, OneTurn, Transient, Hops;
    CallUnfolds(cfg, core, order, script, now);
    var p, rest, ending := order[0], order[1..], EndingOf(cfg.policy, script(order[0]));
    var next := if |order| > 1 then Some(order[1]) else None;
    var after := AfterTurn(cfg, core, p, script(p), next, now);
    MovesOnLaw(ending);
    TurnAsks(cfg, core, p, script, next, now);
    if m > 0 {
      EndsLater(cfg.policy, order, script, m);
      HopsOfTail(order, m);
      CallLaw(cfg, after, rest, script, now + ending.elapsed, m - 1);
      var end := CallFrom(cfg, after, rest, script, now + ending.elapsed);
      RestIsAsked(cfg.policy, order, script, m, core.metrics, after.metrics, end.core.metrics);
    } else {
      EndsHere(cfg.policy, order, script);
      FirstIsAsked(cfg.policy, order, script, core.metrics, after.metrics);
    }
  }

  lemma EndsLater(policy: Policy, order: seq<Name>, script: CallScript, m: nat)
    requires ValidPolicy(policy) && Ends(policy, order, script, m) && m > 0
    ensures |order| > 1 && Transient(EndingOf(policy, script(order[0]))) && Ends(policy, order[1..], script, m - 1)
  {
    hide EndingOf, Transient;
    assert forall i | 1 <= i < |order| :: order[i] == order[1..][i - 1];
  }

  lemma EndsHere(policy: Policy, order: seq<Name>, script: CallScript)
    requires ValidPolicy(policy) && Ends(policy, order, script, 0)
    ensures Hops(order, 0) == multiset{}
    ensures |order| == 1 || !Transient(EndingOf(policy, script(order[0])))
  {
    hide EndingOf, Transient;
  }

  lemma MovesOnLaw(ending: Ending)
    ensures MovesOn(ending) <==> Transient(ending)
  {
  }

  lemma TurnAsks(cfg: Config, core: Core, p: Name, script: CallScript, next: Option<Name>, now: real)
    requires ValidConfig(cfg) && p in core.table
    ensures var m, m' := core.metrics, AfterTurn(cfg, core, p, script(p), next, now).metrics;
            var ending := EndingOf(cfg.policy, script(p));
            && OneTurn(cfg.policy, script, p, m, m') && m'.selected == m.selected
            && m'.fallbacks == m.fallbacks +
                               (if Transient(ending) && next.Some? then multiset{(p, next.value)} else multiset{})
  {
    hide AfterTurn, EndingOf, Showing, Transient;
    TurnLaw(cfg, core, p, script(p), next, now);
  }

  /** The order is the selected provider and then the others as configured. */
  lemma {:induction false} OrderLaw(providers: seq<Name>, k: nat)
    requires Distinct(providers) && k < |providers|
    ensures Ordered(providers, providers[k]) == [providers[k]] + providers[..k] + providers[k + 1..]
  {
    OthersLaw(providers, k);
    var p := providers[k];
    assert [p] + (providers[..k] + providers[k + 1..]) == [p] + providers[..k] + providers[k + 1..];
  }

  lemma {:induction false} OthersLaw(providers: seq<Name>, k: nat)
    requires Distinct(providers) && k < |providers|
    ensures Others(providers, providers[k]) == providers[..k] + providers[k + 1..]
  {
    if k == 0 {
      OthersOfAbsent(providers[1..], providers[0]);
    } else {
      OthersLaw(providers[1..], k - 1);
      assert providers[..k] == [providers[0]] + providers[1..][..k - 1];
      assert providers[k + 1..] == providers[1..][k..];
    }
  }

  lemma {:induction false} OthersOfAbsent(providers: seq<Name>, p: Name)
    requires p !in providers
    ensures Others(providers, p) == providers
  {
    if providers != [] {
      OthersOfAbsent(providers[1..], p);
    }
  }

  /** A whole call: the selection is counted once, the selected provider is asked first and then the others as
      configured, up to the one whose ending is the call's. */
  lemma WholeCallLaw(cfg: Config, core: Core, script: CallScript, now: real) returns (order: seq<Name>, k: nat, m: nat)
    requires ValidConfig(cfg) && Fits(cfg, core)
    ensures k < |cfg.providers| && cfg.providers[k] == Select(cfg.providers, core.table, now, cfg.cooldown)
    ensures order == [cfg.providers[k]] + cfg.providers[..k] + cfg.providers[k + 1..]
    ensures Ends(cfg.policy, order, script, m)
    ensures var end, m0 := Call(cfg, core, script, now), core.metrics;
            && end.result == EndingOf(cfg.policy, script(order[m])).result
            && AskedUpTo(cfg.policy, order, script, m, m0, end.core.metrics)
            && end.core.metrics.fallbacks == m0.fallbacks + Hops(order, m)
            && end.core.metrics.selected == m0.selected + multiset{cfg.providers[k]}
  {
    hide CallFrom, Snapshot, Select, EndingOf, Hops, MovesOn, AskedUpTo, Transient;
    var pick := Pick(cfg, core, now);
    k :| 0 <= k < |cfg.providers| && cfg.providers[k] == pick;
    OrderLaw(cfg.providers, k);
    OrderIsPermutation(cfg.providers, pick);
    order := Ordered(cfg.providers, pick);
    var selected := OnSelect(cfg, core, now);
    m := CallStops(cfg, selected, order, script, now);
    forall i | 0 <= i < |order|
      ensures MovesOn(EndingOf(cfg.policy, script(order[i]))) <==> Transient(EndingOf(cfg.policy, script(order[i])))
    {
      MovesOnLaw(EndingOf(cfg.policy, script(order[i])));
    }
    assert Ends(cfg.policy, order, script, m);
    CallLaw(cfg, selected, order, script, now, m);
    var end := Call(cfg, core, script, now);
    SelectionAsksNobody(cfg.policy, order, script, m, core.metrics, selected.metrics, end.core.metrics);
  }

  lemma SelectionAsksNobody(
    policy: Policy, order: seq<Name>, script: CallScript, m: nat, before: Metrics, selected: Metrics, after: Metrics)
    requires ValidPolicy(policy) && selected.requests == before.requests
    requires AskedUpTo(policy, order, script, m, selected, after)
    ensures AskedUpTo(policy, order, script, m, before, after)
  {
    hide EndingOf;
  }

  // ---------------------------------------------------------------------------
  // Settings and gauges
  // ---------------------------------------------------------------------------

  /** The settings are checked in this order; each complaint means all earlier checks passed. */
  lemma RejectionLaw(providers: seq<Name>, policy: Policy)
    ensures Rejection(providers, policy) == None <==>
            && |providers| > 0 && policy.timeout > 0.0 && policy.maxRetries >= 0
            && 0.0 < policy.baseDelay <= policy.maxDelay
    ensures Rejection(providers, policy) == Some(NoProviders) <==> |providers| == 0
    ensures Rejection(providers, policy) == Some(BadTimeout) <==> |providers| > 0 && policy.timeout <= 0.0
    ensures Rejection(providers, policy) == Some(NegativeRetries) <==>
            |providers| > 0 && policy.timeout > 0.0 && policy.maxRetries < 0
    ensures Rejection(providers, policy) == Some(BadBaseDelay) <==>
            |providers| > 0 && policy.timeout > 0.0 && policy.maxRetries >= 0 && policy.baseDelay <= 0.0
    ensures Rejection(providers, policy) == Some(BadMaxDelay) <==>
            && |providers| > 0 && policy.timeout > 0.0 && policy.maxRetries >= 0
            && policy.baseDelay > 0.0 >= policy.maxDelay
  {
  }

  /** The seven gauges of a provider, over the history of its outcomes. */
  lemma GaugesOfHistory(history: seq<Outcome>, now: real, cooldown: real)
    requires forall o | o in history :: o.Succeeded? ==> o.latency >= 0.0
    ensures var g, n := GaugeOf(Replay(history), now, cooldown), |history| as real;
            && g.requests == |history|
            && (if history == [] then g.successRate == 1.0 && g.errorRate == 0.0
                else g.successRate * n == |Successes(history)| as real &&
                     g.errorRate * n == RouterLaws.Failures(history) as real)
            && g.averageLatency * |Successes(history)| as real == Sum(Successes(history))
            && (Successes(history) == [] ==> g.averageLatency == 0.0)
            && TrailingFailures(history, g.consecutiveFailures)
            && (g.healthy <==>
                  || |history| < 3
                  || (exists i :: |history| - 3 <= i < |history| && history[i].Succeeded?)
                  || (history[|history| - 1].Failed? && now - history[|history| - 1].at >= cooldown))
            && g.score == (if history == [] then 1.0
                           else (if Sum(Successes(history)) > 0.0
                                 then Sum(Successes(history)) / |Successes(history)| as real else 1.0) +
                                RouterLaws.Failures(history) as real / n)
  {
    hide Replay, Successes, Sum, RouterLaws.Failures, Stats.Score, Stats.Available, TrailingFailures;
    hide Stats.SuccessRate, Stats.ErrorRate, Stats.AverageLatency;
    StatsAreFoldOfHistory(history);
    RouterLaws.RatesOfHistory(history);
    RouterLaws.AvailabilityOfHistory(history, now, cooldown);
    RouterLaws.ScoreOfHistory(history);
  }
}
