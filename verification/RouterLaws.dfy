/** What the router computes, said on the raw counts and on the outcome history. */
module RouterLaws {
  import opened Prelude
  import opened RouterSpec

  /** Three failures in a row open the breaker. */
  const OPENS_AT: nat := 3

  /** Statistics that count outcomes: no success, no latency. */
  ghost predicate Counts(s: Stats) {
    s.requests == s.successes + s.failures && s.totalLatency >= 0.0 && (s.successes == 0 ==> s.totalLatency == 0.0)
  }

  lemma Complement(part: real, rest: real)
    requires part + rest > 0.0
    ensures 1.0 - part / (part + rest) == rest / (part + rest)
  {
    var whole := part + rest;
    assert part / whole + rest / whole == whole / whole == 1.0;
  }

  /** Latency and reliability are traded one to one: a second of average latency weighs as much as failing
      always. Without latency to go by, a second is assumed. */
  lemma ScoreOnCounts(s: Stats)
    requires Counts(s) && s.requests > 0
    ensures s.Score() == (if s.totalLatency > 0.0 then s.totalLatency / s.successes as real else 1.0) +
                         s.failures as real / s.requests as real
  {
    Complement(s.successes as real, s.failures as real);
    if s.successes > 0 {
      PositiveRatio(s.totalLatency, s.successes as real);
    }
  }

  /** Of two explored, available providers with some latency measured, the first is picked if and only if
      its average latency plus its share of failures is no larger. */
  lemma PairPreference(a: Name, b: Name, table: Table, now: real, cooldown: real)
    requires a != b && a in table && b in table && Counts(table[a]) && Counts(table[b])
    requires table[a].totalLatency > 0.0 && table[b].totalLatency > 0.0
    requires forall p | p == a || p == b ::
               || table[p].consecutiveFailures < OPENS_AT
               || (table[p].lastFailureAt.Some? && now - table[p].lastFailureAt.value >= cooldown)
    ensures var s, t := table[a], table[b];
            Select([a, b], table, now, cooldown) ==
            if s.totalLatency / s.successes as real + s.failures as real / s.requests as real <=
               t.totalLatency / t.successes as real + t.failures as real / t.requests as real
            then a else b
  {
    ScoreOnCounts(table[a]);
    ScoreOnCounts(table[b]);
    var i := SelectionCorrect([a, b], table, now, cooldown);
    assert table[a].Available(now, cooldown) && table[b].Available(now, cooldown);
    hide Stats.Score, Select, Stats.Available;
    assert Eligible([a, b], table, now, cooldown, [a, b][0]) && Eligible([a, b], table, now, cooldown, [a, b][1]);
    assert i == 0 || i == 1;
  }

  /** With every provider explored, the pick has the least sum of average latency and share of failures among
      the available providers, or among all when none is. */
  lemma PickOnCounts(providers: seq<Name>, table: Table, now: real, cooldown: real, q: Name)
    requires providers != [] && Covers(providers, table) && Explored(providers, table)
    requires forall p | p in providers :: Counts(table[p]) && table[p].totalLatency > 0.0
    requires Eligible(providers, table, now, cooldown, q)
    ensures var p := Select(providers, table, now, cooldown);
            p in providers && q in providers &&
            var s, t := table[p], table[q];
            && s.successes > 0 && t.successes > 0
            && s.totalLatency / s.successes as real + s.failures as real / s.requests as real <=
               t.totalLatency / t.successes as real + t.failures as real / t.requests as real
  {
    hide Stats.Score, Select, Eligible;
    var i := SelectionCorrect(providers, table, now, cooldown);
    EligibleIsConfigured(providers, table, now, cooldown, q);
    var j :| 0 <= j < |providers| && providers[j] == q;
    ScoreOnCounts(table[providers[i]]);
    ScoreOnCounts(table[q]);
  }

  lemma EligibleIsConfigured(providers: seq<Name>, table: Table, now: real, cooldown: real, q: Name)
    requires Covers(providers, table) && Eligible(providers, table, now, cooldown, q)
    ensures q in providers
  {
  }

  /** A failure costs exactly s / (r * (r + 1)) of score, after s successes in r requests. */
  lemma FailureCosts(s: Stats, at: real)
    requires Counts(s) && s.successes > 0
    ensures var a, r := s.successes as real, s.requests as real;
            s.AfterFailure(at).Score() - s.Score() == a / (r * (r + 1.0))
  {
    var a, r, x, t := s.successes as real, s.requests as real, s.failures as real, s.AfterFailure(at);
    ScoreOnCounts(s);
    ScoreOnCounts(t);
    hide Stats.Score;
    assert x == r - a;
    FractionStep(a, r);
    assert t.failures as real / t.requests as real == (r - a + 1.0) / (r + 1.0);
  }

  lemma FractionStep(a: real, r: real)
    requires r > 0.0
    ensures r * (r + 1.0) > 0.0
    ensures (r - a + 1.0) / (r + 1.0) - (r - a) / r == a / (r * (r + 1.0))
  {
    var u, v := (r - a + 1.0) / (r + 1.0), (r - a) / r;
    Undivide(r - a + 1.0, r + 1.0);
    Undivide(r - a, r);
    assert r * (r + 1.0) == r * r + r;
    Crossed(u, v, r, a);
    Quotient(u - v, r * (r + 1.0), a);
  }

  lemma Crossed(u: real, v: real, r: real, a: real)
    requires u * (r + 1.0) == r - a + 1.0 && v * r == r - a
    ensures (u - v) * (r * (r + 1.0)) == a
  {
    assert u * (r * (r + 1.0)) == u * (r + 1.0) * r == (r - a + 1.0) * r;
    assert v * (r * (r + 1.0)) == v * r * (r + 1.0) == (r - a) * (r + 1.0);
  }

  lemma Quotient(x: real, d: real, a: real)
    requires d > 0.0 && x * d == a
    ensures x == a / d
  {
  }

  // ---------------------------------------------------------------------------
  // On the outcome history
  // ---------------------------------------------------------------------------

  lemma {:induction false} SumIsDuration(xs: seq<real>)
    requires forall x | x in xs :: x >= 0.0
    ensures Sum(xs) >= 0.0
  {
    if xs != [] {
      var init := xs[..|xs| - 1];
      assert xs[|xs| - 1] in xs;
      forall x | x in init
        ensures x >= 0.0
      {
        assert x in xs;
      }
      SumIsDuration(init);
    }
  }

  lemma {:induction false} SuccessesAreLatencies(history: seq<Outcome>)
    requires forall o | o in history :: o.Succeeded? ==> o.latency >= 0.0
    ensures forall x | x in Successes(history) :: x >= 0.0
  {
    if history != [] {
      SuccessesAreLatencies(history[..|history| - 1]);
      assert history[|history| - 1] in history;
    }
  }

  /** How many outcomes of the history are failures. */
  function Failures(history: seq<Outcome>): nat {
    if history == [] then 0
    else Failures(history[..|history| - 1]) + if history[|history| - 1].Failed? then 1 else 0
  }

  lemma {:induction false} OutcomesSplit(history: seq<Outcome>)
    ensures |Successes(history)| + Failures(history) == |history|
  {
    if history != [] {
      OutcomesSplit(history[..|history| - 1]);
    }
  }

  lemma HistoryCounts(history: seq<Outcome>)
    requires forall o | o in history :: o.Succeeded? ==> o.latency >= 0.0
    ensures Counts(Replay(history))
  {
    StatsAreFoldOfHistory(history);
    SuccessesAreLatencies(history);
    SumIsDuration(Successes(history));
  }

  /** Available: fewer than three outcomes, or a success among the last three, or a cooldown since the last. */
  lemma AvailabilityOfHistory(history: seq<Outcome>, now: real, cooldown: real)
    ensures Replay(history).Available(now, cooldown) <==>
            || |history| < 3
            || (exists i :: |history| - 3 <= i < |history| && history[i].Succeeded?)
            || (history[|history| - 1].Failed? && now - history[|history| - 1].at >= cooldown)
  {
    StatsAreFoldOfHistory(history);
    var s, n := Replay(history), |history|;
    hide Replay;
    if n >= 3 {
      if s.consecutiveFailures < 3 {
        assert history[n - s.consecutiveFailures - 1].Succeeded?;
      } else {
        assert forall i | n - 3 <= i < n :: history[i].Failed?;
      }
    }
  }

  /** The rates and the average, as shares of the history. */
  lemma RatesOfHistory(history: seq<Outcome>)
    requires forall o | o in history :: o.Succeeded? ==> o.latency >= 0.0
    ensures var s, n := Replay(history), |history| as real;
            && (history == [] ==> s.SuccessRate() == 1.0 && s.ErrorRate() == 0.0)
            && (history != [] ==> s.SuccessRate() * n == |Successes(history)| as real)
            && (history != [] ==> s.ErrorRate() * n == Failures(history) as real)
            && (Successes(history) == [] ==> s.AverageLatency() == 0.0)
            && s.AverageLatency() * |Successes(history)| as real == Sum(Successes(history))
  {
    StatsAreFoldOfHistory(history);
    OutcomesSplit(history);
    var s := Replay(history);
    hide Replay, Successes, Failures;
    if s.requests > 0 {
      Undivide(s.successes as real, s.requests as real);
      Undivide(s.failures as real, s.requests as real);
    }
    if s.successes > 0 {
      Undivide(s.totalLatency, s.successes as real);
    } else {
      assert Successes(history) == [];
    }
  }

  lemma Undivide(a: real, b: real)
    requires b > 0.0
    ensures a / b * b == a
  {
  }

  /** The score of a history: one second if it is empty or nobody's latency is known, else the average
      latency, plus the share of failures. */
  lemma ScoreOfHistory(history: seq<Outcome>)
    requires forall o | o in history :: o.Succeeded? ==> o.latency >= 0.0
    ensures Replay(history).Score() ==
            if history == [] then 1.0
            else (if Sum(Successes(history)) > 0.0
                  then Sum(Successes(history)) / |Successes(history)| as real else 1.0) +
                 Failures(history) as real / |history| as real
  {
    HistoryCounts(history);
    StatsAreFoldOfHistory(history);
    OutcomesSplit(history);
    if history != [] {
      ScoreOnCounts(Replay(history));
    }
    hide Replay, Successes, Failures;
  }
}
