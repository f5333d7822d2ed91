/** How much work one call can cause. */
module GatewayEffort {
  import opened Prelude
  import opened RouterSpec
  import opened GatewaySpec

  lemma {:induction false} BackoffBounded(policy: Policy, n: nat)
    requires ValidPolicy(policy)
    ensures BackoffTime(policy, n) <= policy.baseDelay * (Pow2(n) - 1.0)
    ensures BackoffTime(policy, n) <= n as real * policy.maxDelay
  {
    if n > 0 {
      BackoffBounded(policy, n - 1);
      assert policy.baseDelay * (Pow2(n) - 1.0) ==
             policy.baseDelay * (Pow2(n - 1) - 1.0) + policy.baseDelay * Pow2(n - 1);
      assert n as real * policy.maxDelay == (n - 1) as real * policy.maxDelay + policy.maxDelay;
    }
  }

  lemma {:induction false} BackoffMonotone(policy: Policy, m: nat, n: nat)
    requires ValidPolicy(policy) && m <= n
    ensures BackoffTime(policy, m) <= BackoffTime(policy, n)
  {
    if m < n {
      BackoffMonotone(policy, m, n - 1);
      PowersGrow(n - 1);
      assert policy.baseDelay * Pow2(n - 1) > 0.0;
    }
  }

  lemma {:induction false} AttemptsBounded(policy: Policy, script: Script, n: nat)
    requires ValidPolicy(policy)
    ensures AttemptTime(policy, script, n) <= n as real * policy.timeout
  {
    if n > 0 {
      AttemptsBounded(policy, script, n - 1);
      assert n as real * policy.timeout == (n - 1) as real * policy.timeout + policy.timeout;
    }
  }

  /** The longest one provider can hold a call. */
  function LongestTurn(policy: Policy): real
    requires ValidPolicy(policy)
  {
    (policy.maxRetries + 1) as real * policy.timeout + BackoffTime(policy, policy.maxRetries)
  }

  lemma ProductMonotone(a: real, b: real, t: real)
    requires a <= b && t >= 0.0
    ensures a * t <= b * t
  {
    assert b * t - a * t == (b - a) * t;
  }

  lemma TurnBounded(policy: Policy, script: Script)
    requires ValidPolicy(policy)
    ensures EndingOf(policy, script).attempts <= policy.maxRetries + 1
    ensures 0.0 <= EndingOf(policy, script).elapsed <= LongestTurn(policy)
  {
    hide AttemptTime, BackoffTime, FailsRetryably, LastAttempt;
    LastAttemptEnds(policy, script, 0);
    var last := LastAttempt(policy, script);
    ElapsedIsDuration(policy, script);
    AttemptsBounded(policy, script, last + 1);
    BackoffMonotone(policy, last, policy.maxRetries);
    ProductMonotone((last + 1) as real, (policy.maxRetries + 1) as real, policy.timeout);
  }

  /** Provider calls made while walking `order`. */
  function CallsFrom(policy: Policy, order: seq<Name>, script: CallScript): nat
    requires ValidPolicy(policy) && order != []
  {
    var ending := EndingOf(policy, script(order[0]));
    ending.attempts + if MovesOn(ending) && |order| > 1 then CallsFrom(policy, order[1..], script) else 0
  }

  lemma OneMoreTurn(n: nat, r: nat)
    ensures (n + 1) * r == n * r + r && n * r >= 0
  {
  }

  lemma OneMoreWait(n: nat, x: real)
    requires x >= 0.0
    ensures (n + 1) as real * x == n as real * x + x && n as real * x >= 0.0
  {
  }

  lemma {:induction false} CallsBounded(policy: Policy, order: seq<Name>, script: CallScript)
    requires ValidPolicy(policy) && order != []
    ensures CallsFrom(policy, order, script) <= |order| * (policy.maxRetries + 1)
  {
    hide EndingOf, MovesOn;
    TurnBounded(policy, script(order[0]));
    OneMoreTurn(|order| - 1, policy.maxRetries + 1);
    if |order| > 1 {
      CallsBounded(policy, order[1..], script);
    }
  }

  lemma {:induction false} OrderBounded(cfg: Config, core: Core, order: seq<Name>, script: CallScript, now: real)
    requires ValidConfig(cfg) && order != [] && Covers(order, core.table)
    ensures now <= CallFrom(cfg, core, order, script, now).now <= now + |order| as real * LongestTurn(cfg.policy)
    decreases |order|
  {
    hide EndingOf, LongestTurn, AfterTurn, MovesOn, CallFrom;
    CallUnfolds(cfg, core, order, script, now);
    var ending := EndingOf(cfg.policy, script(order[0]));
    TurnBounded(cfg.policy, script(order[0]));
    OneMoreWait(|order| - 1, LongestTurn(cfg.policy));
    if MovesOn(ending) && |order| > 1 {
      var after := AfterTurn(cfg, core, order[0], script(order[0]), Some(order[1]), now);
      OrderBounded(cfg, after, order[1..], script, now + ending.elapsed);
    }
  }

  /** Every provider call, retried or not, shows up in the request counter. */
  lemma {:induction false} CallsAreCounted(cfg: Config, core: Core, order: seq<Name>, script: CallScript, now: real)
    requires ValidConfig(cfg) && order != [] && Covers(order, core.table)
    ensures |CallFrom(cfg, core, order, script, now).core.metrics.requests| ==
            |core.metrics.requests| + CallsFrom(cfg.policy, order, script)
    decreases |order|
  {
    hide MovesOn, Snapshot, EndingOf, AfterTurn;
    var ending := EndingOf(cfg.policy, script(order[0]));
    var next := if |order| > 1 then Some(order[1]) else None;
    TurnIsCounted(cfg, core, order[0], script(order[0]), next, now);
    if MovesOn(ending) && |order| > 1 {
      var after := AfterTurn(cfg, core, order[0], script(order[0]), next, now);
      CallsAreCounted(cfg, after, order[1..], script, now + ending.elapsed);
    }
  }

  lemma TurnIsCounted(cfg: Config, core: Core, p: Name, script: Script, next: Option<Name>, now: real)
    requires ValidConfig(cfg) && p in core.table
    ensures |AfterTurn(cfg, core, p, script, next, now).metrics.requests| ==
            |core.metrics.requests| + EndingOf(cfg.policy, script).attempts
  {
    hide Snapshot, WaitFor, AttemptTime, BackoffTime, Stats.AfterSuccess, Stats.AfterFailure, Label;
    LastAttemptEnds(cfg.policy, script, 0);
    RetriesAreCounted(cfg.policy, core.metrics, p, script, LastAttempt(cfg.policy, script));
  }

  lemma {:induction false} RetriesAreCounted(policy: Policy, m: Metrics, p: Name, script: Script, n: nat)
    requires ValidPolicy(policy)
    requires forall k: nat | k < n :: FailsRetryably(policy, script, k)
    ensures |AfterRetries(policy, m, p, script, n).requests| == |m.requests| + n
  {
    hide Label, WaitFor, Metrics.CountError, Metrics.CountRetry;
    if n > 0 {
      RetriesAreCounted(policy, m, p, script, n - 1);
      assert FailsRetryably(policy, script, n - 1);
      RetryIsCounted(AfterRetries(policy, m, p, script, n - 1), p, Label(Seen(policy, script, n - 1).result.error));
    }
  }

  lemma RetryIsCounted(m: Metrics, p: Name, kind: ErrorLabel)
    ensures |m.CountError(p, kind).CountRetry(p, kind).requests| == |m.requests| + 1
  {
  }

  lemma LongestTurnBounded(p: Policy)
    requires ValidPolicy(p)
    ensures LongestTurn(p) <= (p.maxRetries + 1) as real * p.timeout + p.baseDelay * (Pow2(p.maxRetries) - 1.0)
    ensures LongestTurn(p) <= (p.maxRetries + 1) as real * p.timeout + p.maxRetries as real * p.maxDelay
  {
    BackoffBounded(p, p.maxRetries);
  }

  /** One call over n providers: at most n * (R + 1) provider calls, and a duration bounded by the
      timeouts and the saturating backoff alone. */
  lemma CallBounded(cfg: Config, core: Core, script: CallScript, now: real)
    requires ValidConfig(cfg) && Fits(cfg, core)
    ensures var n, r := |cfg.providers|, cfg.policy.maxRetries;
            var end := Call(cfg, core, script, now);
            && |end.core.metrics.requests| - |core.metrics.requests| <= n * (r + 1)
            && now <= end.now <= now + n as real * LongestTurn(cfg.policy)
  {
    hide LongestTurn, CallFrom, CallsFrom, Call, Pick;
    var selected, order := CallIsWalk(cfg, core, script, now);
    CallsBounded(cfg.policy, order, script);
    OrderBounded(cfg, selected, order, script, now);
    CallsAreCounted(cfg, selected, order, script, now);
  }
}
