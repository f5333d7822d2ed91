/** The provider router on values: statistics, availability, score and selection. */
module RouterSpec {
  import opened Prelude

  type Name = string

  const FAILURE_THRESHOLD: nat := 3

  /** A snapshot of one provider's statistics. */
  datatype Stats = Stats(
    requests: nat,
    successes: nat,
    failures: nat,
    totalLatency: real,
    consecutiveFailures: nat,
    lastFailureAt: Option<real>)
  {
    function SuccessRate(): real {
      if requests == 0 then 1.0 else successes as real / requests as real
    }

    function ErrorRate(): real {
      if requests == 0 then 0.0 else failures as real / requests as real
    }

    function AverageLatency(): real {
      if successes == 0 then 0.0 else totalLatency / successes as real
    }

    function Score(): real {
      if requests == 0 then 1.0
      else (if AverageLatency() > 0.0 then AverageLatency() else 1.0) + (1.0 - SuccessRate())
    }

    /** Closed breaker, or an open one whose cooldown has expired. */
    predicate Available(now: real, cooldown: real) {
      || consecutiveFailures < FAILURE_THRESHOLD
      || (lastFailureAt.Some? && now - lastFailureAt.value >= cooldown)
    }

    function AfterSuccess(latency: real): Stats {
      Stats(requests + 1, successes + 1, failures, totalLatency + latency, 0, None)
    }

    function AfterFailure(at: real): Stats {
      Stats(requests + 1, successes, failures + 1, totalLatency, consecutiveFailures + 1, Some(at))
    }
  }

  const FRESH := Stats(0, 0, 0, 0.0, 0, None)

  type Table = map<Name, Stats>

  ghost predicate Covers(providers: seq<Name>, table: Table) {
    forall p | p in providers :: p in table
  }

  // ---------------------------------------------------------------------------
  // Statistics are the fold of the outcome history
  // ---------------------------------------------------------------------------

  datatype Outcome = Succeeded(latency: real) | Failed(at: real)

  function Replay(history: seq<Outcome>): Stats {
    if history == [] then FRESH
    else
      var before := Replay(history[..|history| - 1]);
      match history[|history| - 1]
      case Succeeded(latency) => before.AfterSuccess(latency)
      case Failed(at) => before.AfterFailure(at)
  }

  function Successes(history: seq<Outcome>): seq<real> {
    if history == [] then []
    else Successes(history[..|history| - 1]) +
         (if history[|history| - 1].Succeeded? then [history[|history| - 1].latency] else [])
  }

  function Sum(xs: seq<real>): real {
    if xs == [] then 0.0 else Sum(xs[..|xs| - 1]) + xs[|xs| - 1]
  }

  /** `k` is the length of the longest all-failure suffix. */
  ghost predicate TrailingFailures(history: seq<Outcome>, k: nat) {
    && k <= |history|
    && (forall i | |history| - k <= i < |history| :: history[i].Failed?)
    && (k < |history| ==> history[|history| - k - 1].Succeeded?)
  }

  lemma {:induction false} StatsAreFoldOfHistory(history: seq<Outcome>)
    ensures var s := Replay(history);
            && s.requests == |history| == s.successes + s.failures
            && s.successes == |Successes(history)|
            && s.totalLatency == Sum(Successes(history))
            && TrailingFailures(history, s.consecutiveFailures)
            && (s.lastFailureAt.Some? <==> history != [] && history[|history| - 1].Failed?)
            && (s.lastFailureAt.Some? ==> s.lastFailureAt.value == history[|history| - 1].at)
  {
    if history != [] {
      var init := history[..|history| - 1];
      StatsAreFoldOfHistory(init);
      var s, before := Replay(history), Replay(init);
      if history[|history| - 1].Succeeded? {
        assert Successes(history)[..|Successes(history)| - 1] == Successes(init);
      } else {
        assert Successes(history) == Successes(init);
        assert forall i | 0 <= i < |init| :: init[i] == history[i];
      }
    }
  }

  /** What every statistics object the router can reach satisfies at time `now`. */
  ghost predicate Sound(s: Stats, now: real) {
    && s.requests == s.successes + s.failures
    && s.consecutiveFailures <= s.failures
    && s.totalLatency >= 0.0
    && (s.lastFailureAt.Some? <==> s.consecutiveFailures > 0)
    && (s.lastFailureAt.Some? ==> s.lastFailureAt.value <= now)
  }

  ghost predicate SoundTable(table: Table, now: real) {
    forall p | p in table :: Sound(table[p], now)
  }

  lemma RatioBelow(a: real, b: real, c: real, d: real)
    requires b > 0.0 && d > 0.0
    requires a * d <= c * b
    ensures a / b <= c / d
    ensures a * d < c * b ==> a / b < c / d
  {
    assert a / b == (a * d) / (b * d);
    assert c / d == (c * b) / (b * d);
    assert b * d > 0.0;
  }

  /** A failure always costs score once there is a success to lose. */
  lemma FailureRaisesScore(s: Stats, at: real)
    requires s.requests == s.successes + s.failures
    requires s.successes > 0
    ensures s.AfterFailure(at).Score() > s.Score()
  {
    var a, r := s.successes as real, s.requests as real;
    assert a * r < a * (r + 1.0);
    RatioBelow(a, r + 1.0, a, r);
  }

  /** Success rates never fall with a success. */
  lemma SuccessRateRises(s: Stats, latency: real)
    requires s.requests == s.successes + s.failures
    ensures s.successes > 0 ==> s.AfterSuccess(latency).SuccessRate() >= s.SuccessRate()
  {
    var a, r := s.successes as real, s.requests as real;
    if s.successes > 0 {
      assert (a + 1.0) * r - a * (r + 1.0) == r - a;
      RatioBelow(a, r, a + 1.0, r + 1.0);
    }
  }

  /** A success that is no slower than the running average never costs score. */
  lemma QuickSuccessNeverRaisesScore(s: Stats, latency: real)
    requires s.requests == s.successes + s.failures
    requires s.successes > 0 && s.totalLatency >= 0.0
    requires 0.0 <= latency <= s.AverageLatency()
    ensures s.AfterSuccess(latency).Score() <= s.Score()
  {
    SuccessRateRises(s, latency);
    if s.AverageLatency() > 0.0 {
      AverageNeverRises(s.successes as real, s.totalLatency, latency);
    } else {
      PositiveRatio(s.totalLatency, s.successes as real);
    }
  }

  lemma AverageNeverRises(n: real, total: real, x: real)
    requires n >= 1.0 && 0.0 <= x <= total / n && total / n > 0.0
    ensures 0.0 < (total + x) / (n + 1.0) <= total / n
  {
    var average := total / n;
    var gain := average - x;
    assert total == average * n;
    PositiveRatio(total, n);
    PositiveRatio(total + x, n + 1.0);
    assert total + x == average * (n + 1.0) - gain;
    assert (total + x) / (n + 1.0) == average - gain / (n + 1.0);
    assert gain / (n + 1.0) >= 0.0;
  }

  lemma Scaled(a: real, c: real, b: real)
    requires b > 0.0
    ensures a < c ==> a * b < c * b
    ensures a >= c ==> a * b >= c * b
  {
    assert a * b - c * b == (a - c) * b;
  }

  lemma PositiveRatio(a: real, b: real)
    requires b > 0.0
    ensures a / b > 0.0 <==> a > 0.0
    ensures a / b >= 1.0 <==> a >= b
  {
    Scaled(a, 0.0, b);
    Scaled(a, b, b);
    if a > 0.0 { RatioBelow(0.0, b, a, b); } else { RatioBelow(a, b, 0.0, b); }
    if a >= b { RatioBelow(b, b, a, b); } else { RatioBelow(a, b, b, b); }
  }

  /** Of two next successes the faster one scores no worse, except when the zero-latency rule turns it into
      a score of 1.0: it would leave the average at zero, and the slower one positive and below 1.0. */
  lemma ScoreFollowsLatency(s: Stats, x: real, y: real)
    requires s.totalLatency >= 0.0 && 0.0 <= x <= y
    ensures s.AfterSuccess(x).Score() <= s.AfterSuccess(y).Score() <==>
            !(s.totalLatency + x == 0.0 && 0.0 < s.totalLatency + y < (s.successes + 1) as real)
  {
    var n, a, b := (s.successes + 1) as real, s.AfterSuccess(x), s.AfterSuccess(y);
    var u, v, penalty := (s.totalLatency + x) / n, (s.totalLatency + y) / n, 1.0 - a.SuccessRate();
    PositiveRatio(s.totalLatency + x, n);
    PositiveRatio(s.totalLatency + y, n);
    RatioBelow(s.totalLatency + x, n, s.totalLatency + y, n);
    assert a.AverageLatency() == u && b.AverageLatency() == v && b.SuccessRate() == a.SuccessRate();
    assert a.Score() == (if u > 0.0 then u else 1.0) + penalty;
    assert b.Score() == (if v > 0.0 then v else 1.0) + penalty;
    hide Stats.Score, Stats.AverageLatency, Stats.SuccessRate;
  }

  /** The exception occurs: a first success of no latency scores worse than one of half a second. */
  lemma InstantSuccessScoresWorse()
    ensures FRESH.AfterSuccess(0.0).Score() > FRESH.AfterSuccess(0.5).Score()
  {
  }

  // ---------------------------------------------------------------------------
  // Selection
  // ---------------------------------------------------------------------------

  function Unexplored(providers: seq<Name>, table: Table): seq<Name>
    requires Covers(providers, table)
  {
    if providers == [] then []
    else
      (if table[providers[0]].requests == 0 then [providers[0]] else []) +
      Unexplored(providers[1..], table)
  }

  function AvailableOnes(providers: seq<Name>, table: Table, now: real, cooldown: real): seq<Name>
    requires Covers(providers, table)
  {
    if providers == [] then []
    else
      (if table[providers[0]].Available(now, cooldown) then [providers[0]] else []) +
      AvailableOnes(providers[1..], table, now, cooldown)
  }

  function ScoresOf(candidates: seq<Name>, table: Table): (scores: seq<real>)
    requires Covers(candidates, table)
    ensures |scores| == |candidates|
    ensures forall i | 0 <= i < |scores| :: scores[i] == table[candidates[i]].Score()
  {
    seq(|candidates|, i requires 0 <= i < |candidates| =>
          assert candidates[i] in candidates; table[candidates[i]].Score())
  }

  /** The index Python's `min` settles on: a later element wins only when strictly smaller. */
  function ArgMin(scores: seq<real>): (k: nat)
    requires scores != []
    ensures k < |scores|
  {
    var n := |scores| - 1;
    if n == 0 then 0
    else
      var k := ArgMin(scores[..n]);
      if scores[n] < scores[k] then n else k
  }

  function Best(candidates: seq<Name>, table: Table): (best: Name)
    requires candidates != [] && Covers(candidates, table)
    ensures best in candidates
  {
    candidates[ArgMin(ScoresOf(candidates, table))]
  }

  lemma {:induction false} UnexploredIsFilter(providers: seq<Name>, table: Table)
    requires Covers(providers, table)
    ensures forall p :: p in Unexplored(providers, table) <==> p in providers && table[p].requests == 0
  {
    if providers != [] {
      UnexploredIsFilter(providers[1..], table);
      assert forall p :: p in providers <==> p == providers[0] || p in providers[1..];
    }
  }

  lemma {:induction false} AvailableIsFilter(providers: seq<Name>, table: Table, now: real, cooldown: real)
    requires Covers(providers, table)
    ensures forall p :: p in AvailableOnes(providers, table, now, cooldown) <==>
                        p in providers && table[p].Available(now, cooldown)
  {
    if providers != [] {
      AvailableIsFilter(providers[1..], table, now, cooldown);
      assert forall p :: p in providers <==> p == providers[0] || p in providers[1..];
    }
  }

  function Candidates(providers: seq<Name>, table: Table, now: real, cooldown: real): (c: seq<Name>)
    requires Covers(providers, table)
    requires providers != []
    ensures c != [] && forall p | p in c :: p in providers
  {
    AvailableIsFilter(providers, table, now, cooldown);
    var available := AvailableOnes(providers, table, now, cooldown);
    if available != [] then available else providers
  }

  function Select(providers: seq<Name>, table: Table, now: real, cooldown: real): (pick: Name)
    requires providers != [] && Covers(providers, table)
    ensures pick in providers
  {
    UnexploredIsFilter(providers, table);
    var untried := Unexplored(providers, table);
    if untried != [] then untried[0] else Best(Candidates(providers, table, now, cooldown), table)
  }

  lemma {:induction false} ArgMinIsEarliestMinimum(scores: seq<real>)
    requires scores != []
    ensures forall i | 0 <= i < |scores| :: scores[ArgMin(scores)] <= scores[i]
    ensures forall i | 0 <= i < ArgMin(scores) :: scores[ArgMin(scores)] < scores[i]
  {
    var n := |scores| - 1;
    if n > 0 {
      ArgMinIsEarliestMinimum(scores[..n]);
    }
  }

  lemma {:induction false} UnexploredHead(providers: seq<Name>, table: Table) returns (k: nat)
    requires Covers(providers, table) && Unexplored(providers, table) != []
    ensures k < |providers| && providers[k] == Unexplored(providers, table)[0]
    ensures table[providers[k]].requests == 0
    ensures forall i | 0 <= i < k :: table[providers[i]].requests > 0
  {
    if table[providers[0]].requests == 0 {
      k := 0;
    } else {
      var j := UnexploredHead(providers[1..], table);
      k := j + 1;
      assert forall i | 1 <= i < |providers| :: providers[i] == providers[1..][i - 1];
    }
  }

  lemma {:induction false} AvailableKeepsOrder(providers: seq<Name>, table: Table, now: real, cooldown: real, k: nat)
    returns (i: nat)
    requires Covers(providers, table)
    requires k < |AvailableOnes(providers, table, now, cooldown)|
    ensures i < |providers| && providers[i] == AvailableOnes(providers, table, now, cooldown)[k]
    ensures forall j | 0 <= j < i && table[providers[j]].Available(now, cooldown) ::
              exists m: nat :: m < k && AvailableOnes(providers, table, now, cooldown)[m] == providers[j]
  {
    var all := AvailableOnes(providers, table, now, cooldown);
    var rest := AvailableOnes(providers[1..], table, now, cooldown);
    if table[providers[0]].Available(now, cooldown) {
      assert all[0] == providers[0];
      if k == 0 {
        i := 0;
      } else {
        var i' := AvailableKeepsOrder(providers[1..], table, now, cooldown, k - 1);
        i := i' + 1;
        forall j | 0 <= j < i && table[providers[j]].Available(now, cooldown)
          ensures exists m: nat :: m < k && all[m] == providers[j]
        {
          if j > 0 {
            assert providers[j] == providers[1..][j - 1];
            var m: nat :| m < k - 1 && rest[m] == providers[1..][j - 1];
            assert all[m + 1] == providers[j];
          }
        }
      }
    } else {
      assert all == rest;
      var i' := AvailableKeepsOrder(providers[1..], table, now, cooldown, k);
      i := i' + 1;
      forall j | 0 <= j < i && table[providers[j]].Available(now, cooldown)
        ensures exists m: nat :: m < k && all[m] == providers[j]
      {
        assert j > 0;
        assert providers[j] == providers[1..][j - 1];
      }
    }
  }

  /** Candidates of the exploitation phase: the available providers, or all when none is. */
  ghost predicate Eligible(providers: seq<Name>, table: Table, now: real, cooldown: real, p: Name)
    requires Covers(providers, table)
  {
    && p in providers
    && (table[p].Available(now, cooldown) || forall q | q in providers :: !table[q].Available(now, cooldown))
  }

  ghost predicate Explored(providers: seq<Name>, table: Table)
    requires Covers(providers, table)
  {
    forall p | p in providers :: table[p].requests > 0
  }

  /** `providers[i]` is the pick the router promises: the earliest provider that was never tried;
      with all tried, the earliest minimum of the score among the eligible ones. */
  ghost predicate Promised(providers: seq<Name>, table: Table, now: real, cooldown: real, i: nat)
    requires Covers(providers, table) && i < |providers|
  {
    if !Explored(providers, table) then
      && table[providers[i]].requests == 0
      && forall j | 0 <= j < i :: table[providers[j]].requests > 0
    else
      && Eligible(providers, table, now, cooldown, providers[i])
      && (forall j | 0 <= j < |providers| && Eligible(providers, table, now, cooldown, providers[j]) ::
            table[providers[i]].Score() <= table[providers[j]].Score())
      && (forall j | 0 <= j < i && Eligible(providers, table, now, cooldown, providers[j]) ::
            table[providers[i]].Score() < table[providers[j]].Score())
  }

  lemma CandidatesAreEligible(providers: seq<Name>, table: Table, now: real, cooldown: real)
    requires providers != [] && Covers(providers, table)
    ensures forall p :: p in Candidates(providers, table, now, cooldown) <==>
                        Eligible(providers, table, now, cooldown, p)
  {
    hide Stats.Available;
    AvailableIsFilter(providers, table, now, cooldown);
    var available := AvailableOnes(providers, table, now, cooldown);
    if available != [] {
      assert available[0] in available;
    }
  }

  lemma ExploitationCorrect(providers: seq<Name>, table: Table, now: real, cooldown: real) returns (i: nat)
    requires providers != [] && Covers(providers, table) && Explored(providers, table)
    ensures i < |providers| && providers[i] == Best(Candidates(providers, table, now, cooldown), table)
    ensures Promised(providers, table, now, cooldown, i)
  {
    hide Stats.Score, Stats.Available, Eligible;
    CandidatesAreEligible(providers, table, now, cooldown);
    var available := AvailableOnes(providers, table, now, cooldown);
    var candidates := Candidates(providers, table, now, cooldown);
    var scores := ScoresOf(candidates, table);
    var k := ArgMin(scores);
    ArgMinIsEarliestMinimum(scores);
    i := k;
    if available != [] {
      i := AvailableKeepsOrder(providers, table, now, cooldown, k);
    }
    assert providers[i] == candidates[k] && candidates[k] in candidates;
    forall j | 0 <= j < i && Eligible(providers, table, now, cooldown, providers[j])
      ensures exists m: nat :: m < k && candidates[m] == providers[j]
    {
      assert providers[j] in candidates;
      if available == [] {
        assert j < k && candidates[j] == providers[j];
      } else {
        AvailableIsFilter(providers, table, now, cooldown);
      }
    }
  }

  /** The scan picks exactly the promised provider, and nothing else satisfies the promise. */
  lemma SelectionCorrect(providers: seq<Name>, table: Table, now: real, cooldown: real) returns (i: nat)
    requires providers != [] && Covers(providers, table)
    ensures i < |providers| && providers[i] == Select(providers, table, now, cooldown)
    ensures Promised(providers, table, now, cooldown, i)
    ensures forall j: nat | j < |providers| && Promised(providers, table, now, cooldown, j) :: j == i
  {
    UnexploredIsFilter(providers, table);
    var untried := Unexplored(providers, table);
    if untried != [] {
      assert untried[0] in untried;
      i := UnexploredHead(providers, table);
    } else {
      i := ExploitationCorrect(providers, table, now, cooldown);
    }
  }
}
