/** The provider router as the program runs it: mutable statistics objects held in a dictionary. */
module Router {
  import opened Prelude
  import opened RouterSpec
  import RouterLaws

  datatype RouterError = NoProviders | BadCooldown | NegativeLatency | UnmanagedProvider(name: Name)

  datatype ProviderScore = ProviderScore(
    provider: Name, score: real, averageLatency: real, successRate: real, healthy: bool)

  function ScoreOf(p: Name, s: Stats, now: real, cooldown: real): ProviderScore {
    ProviderScore(p, s.Score(), s.AverageLatency(), s.SuccessRate(), s.Available(now, cooldown))
  }

  /** The five reported values of a provider, over the history of its outcomes. */
  lemma ScoreRecordOfHistory(p: Name, history: seq<Outcome>, now: real, cooldown: real)
    requires forall o | o in history :: o.Succeeded? ==> o.latency >= 0.0
    ensures var r := ScoreOf(p, Replay(history), now, cooldown);
            && r.provider == p
            && r.averageLatency * |Successes(history)| as real == Sum(Successes(history))
            && (Successes(history) == [] ==> r.averageLatency == 0.0)
            && (if history == [] then r.successRate == 1.0
                else r.successRate * |history| as real == |Successes(history)| as real)
            && (r.healthy <==>
                  || |history| < 3
                  || (exists i :: |history| - 3 <= i < |history| && history[i].Succeeded?)
                  || (history[|history| - 1].Failed? && now - history[|history| - 1].at >= cooldown))
            && r.score == (if history == [] then 1.0
                           else (if Sum(Successes(history)) > 0.0
                                 then Sum(Successes(history)) / |Successes(history)| as real else 1.0) +
                                RouterLaws.Failures(history) as real / |history| as real)
  {
    hide Replay, Successes, Sum, RouterLaws.Failures, Stats.Score, Stats.Available;
    hide Stats.SuccessRate, Stats.AverageLatency, Stats.ErrorRate;
    RouterLaws.RatesOfHistory(history);
    RouterLaws.AvailabilityOfHistory(history, now, cooldown);
    RouterLaws.ScoreOfHistory(history);
  }

  class ProviderStats {
    var requests: nat
    var successes: nat
    var failures: nat
    var totalLatency: real
    var consecutiveFailures: nat
    var lastFailureAt: Option<real>

    constructor ()
      ensures Value() == FRESH
    {
      requests, successes, failures, totalLatency := 0, 0, 0, 0.0;
      consecutiveFailures, lastFailureAt := 0, None;
    }

    function Value(): Stats
      reads this
    {
      Stats(requests, successes, failures, totalLatency, consecutiveFailures, lastFailureAt)
    }
  }

  class ProviderRouter {
    const providers: seq<Name>
    const cooldown: real
    var stats: map<Name, ProviderStats>

    ghost predicate Valid()
      reads this, stats.Values
    {
      && providers != [] && Distinct(providers) && cooldown > 0.0
      && (forall p :: p in providers <==> p in stats)
      && (forall p, q | p in stats && q in stats && p != q :: stats[p] != stats[q])
    }

    ghost function Table(): (table: Table)
      requires Valid()
      reads this, stats.Values
      ensures forall p :: p in table <==> p in providers
    {
      map p | p in stats :: stats[p].Value()
    }

    /** Statistics are keyed by name, so the names are taken to be distinct. */
    constructor (providers: seq<Name>, cooldown: real)
      requires providers != [] && cooldown > 0.0
      requires Distinct(providers)
      ensures Valid() && fresh(stats.Values)
      ensures this.providers == providers && this.cooldown == cooldown
      ensures Table() == map p | p in providers :: FRESH
    {
      this.providers := providers;
      this.cooldown := cooldown;
      this.stats := map[];
      new;
      for i := 0 to |providers|
        invariant forall p | p in stats :: fresh(stats[p])
        invariant forall p :: p in stats <==> p in providers[..i]
        invariant forall p, q | p in stats && q in stats && p != q :: stats[p] != stats[q]
        invariant forall p | p in stats :: stats[p].Value() == FRESH
      {
        var entry := new ProviderStats();
        stats := stats[providers[i] := entry];
      }
    }

    static method Create(providers: seq<Name>, cooldown: real := 30.0) returns (r: Result<ProviderRouter, RouterError>)
      requires Distinct(providers)
      ensures r.Ok? <==> providers != [] && cooldown > 0.0
      ensures r.Err? ==> r.error == if providers == [] then NoProviders else BadCooldown
      ensures r.Ok? ==> fresh(r.value) && r.value.Valid()
      ensures r.Ok? ==> r.value.providers == providers && r.value.cooldown == cooldown
      ensures r.Ok? ==> r.value.Table() == map p | p in providers :: FRESH
    {
      if providers == [] {
        return Err(NoProviders);
      }
      if cooldown <= 0.0 {
        return Err(BadCooldown);
      }
      var router := new ProviderRouter(providers, cooldown);
      return Ok(router);
    }

    method SelectProvider(now: real) returns (pick: Name)
      requires Valid()
      ensures pick == Select(providers, Table(), now, cooldown)
    {
      hide Stats.Score, Stats.Available, Best, Candidates;
      ghost var table := Table();
      for i := 0 to |providers|
        invariant Unexplored(providers, table) == Unexplored(providers[i..], table)
      {
        assert providers[i..][0] == providers[i] && providers[i..][1..] == providers[i + 1..];
        if stats[providers[i]].requests == 0 {
          return providers[i];
        }
      }
      pick := SelectBest(now);
    }

    method SelectBest(now: real) returns (pick: Name)
      requires Valid()
      ensures pick == Best(Candidates(providers, Table(), now, cooldown), Table())
    {
      hide Stats.Score, Stats.Available, Best;
      var scored := AvailableProviders(now);
      if scored == [] {
        scored := providers;
      }
      assert scored == Candidates(providers, Table(), now, cooldown);
      pick := LeastScore(scored);
    }

    method AvailableProviders(now: real) returns (scored: seq<Name>)
      requires Valid()
      ensures scored == AvailableOnes(providers, Table(), now, cooldown)
    {
      hide Stats.Score, Stats.Available;
      ghost var table := Table();
      scored := [];
      for i := 0 to |providers|
        invariant AvailableOnes(providers, table, now, cooldown) ==
                  scored + AvailableOnes(providers[i..], table, now, cooldown)
      {
        assert providers[i..][0] == providers[i] && providers[i..][1..] == providers[i + 1..];
        var available := IsAvailable(providers[i], now);
        if available {
          scored := scored + [providers[i]];
        }
      }
    }

    method LeastScore(scored: seq<Name>) returns (pick: Name)
      requires Valid() && scored != [] && forall p | p in scored :: p in providers
      ensures pick == Best(scored, Table())
    {
      hide Stats.Score;
      ghost var scores := ScoresOf(scored, Table());
      assert forall i | 0 <= i < |scored| :: scores[i] == stats[scored[i]].Value().Score();
      hide ProviderRouter.Table, ProviderRouter.Valid, ScoresOf;
      var best := 0;
      for k := 1 to |scored|
        invariant best < k && best == ArgMin(scores[..k])
      {
        assert scores[..k + 1][..k] == scores[..k];
        if stats[scored[k]].Value().Score() < stats[scored[best]].Value().Score() {
          best := k;
        }
      }
      assert scores[..|scored|] == scores;
      pick := scored[best];
    }

    method IsAvailable(provider: Name, now: real) returns (available: bool)
      requires Valid() && provider in providers
      ensures available == Table()[provider].Available(now, cooldown)
    {
      var s := stats[provider];
      if s.consecutiveFailures < FAILURE_THRESHOLD {
        return true;
      }
      if s.lastFailureAt == None {
        return false;
      }
      return now - s.lastFailureAt.value >= cooldown;
    }

    method RecordSuccess(provider: Name, latency: real) returns (r: Result<(), RouterError>)
      requires Valid()
      modifies stats.Values
      ensures Valid() && stats == old(stats)
      ensures r == if latency < 0.0 then Err(NegativeLatency)
                   else if provider !in providers then Err(UnmanagedProvider(provider)) else Ok(())
      ensures Table() == if r.Ok? then old(Table())[provider := old(Table())[provider].AfterSuccess(latency)]
                         else old(Table())
    {
      if latency < 0.0 {
        return Err(NegativeLatency);
      }
      if provider !in stats {
        return Err(UnmanagedProvider(provider));
      }
      var s := stats[provider];
      s.requests := s.requests + 1;
      s.successes := s.successes + 1;
      s.totalLatency := s.totalLatency + latency;
      s.consecutiveFailures := 0;
      s.lastFailureAt := None;
      return Ok(());
    }

    method RecordFailure(provider: Name, now: real) returns (r: Result<(), RouterError>)
      requires Valid()
      modifies stats.Values
      ensures Valid() && stats == old(stats)
      ensures r == if provider !in providers then Err(UnmanagedProvider(provider)) else Ok(())
      ensures Table() == if r.Ok? then old(Table())[provider := old(Table())[provider].AfterFailure(now)]
                         else old(Table())
    {
      if provider !in stats {
        return Err(UnmanagedProvider(provider));
      }
      var s := stats[provider];
      s.requests := s.requests + 1;
      s.failures := s.failures + 1;
      s.consecutiveFailures := s.consecutiveFailures + 1;
      s.lastFailureAt := Some(now);
      return Ok(());
    }

    /** A copy: later recording does not show through it. */
    method GetStats(provider: Name) returns (r: Result<ProviderStats, RouterError>)
      requires Valid()
      ensures r.Ok? <==> provider in providers
      ensures r.Err? ==> r.error == UnmanagedProvider(provider)
      ensures r.Ok? ==> fresh(r.value) && r.value.Value() == Table()[provider]
    {
      if provider !in stats {
        return Err(UnmanagedProvider(provider));
      }
      var s := stats[provider];
      var copy := new ProviderStats();
      copy.requests, copy.successes, copy.failures := s.requests, s.successes, s.failures;
      copy.totalLatency := s.totalLatency;
      copy.consecutiveFailures, copy.lastFailureAt := s.consecutiveFailures, s.lastFailureAt;
      return Ok(copy);
    }

    method GetScores(now: real) returns (scores: seq<ProviderScore>)
      requires Valid()
      ensures |scores| == |providers|
      ensures forall i | 0 <= i < |scores| ::
                scores[i] == ScoreOf(providers[i], Table()[providers[i]], now, cooldown)
    {
      scores := [];
      for i := 0 to |providers|
        invariant |scores| == i
        invariant forall j | 0 <= j < i ::
                    scores[j] == ScoreOf(providers[j], Table()[providers[j]], now, cooldown)
      {
        var available := IsAvailable(providers[i], now);
        var s := stats[providers[i]].Value();
        scores := scores + [ProviderScore(providers[i], s.Score(), s.AverageLatency(), s.SuccessRate(), available)];
      }
    }
  }
}
