/** Many API workers on one store: a check is a clock read and two increments that land later, with
    anything in between. */
module RateLimiterWorkers {
  import opened Prelude
  import opened Keys
  import opened Redis
  import opened RateLimiter
  import Properties = RateLimiterProperties

  datatype Worker = HasRead(user: string, readAt: nat) | HalfDone(user: string, readAt: nat, minuteCount: nat)

  /** An increment that reached the store, and the count it got back. */
  datatype Landing = Landing(w: Window, user: string, readAt: nat, count: nat)

  datatype Finished = Finished(user: string, readAt: nat, minuteCount: nat, hourCount: nat)

  datatype Sys = Sys(ks: Keyspace, now: nat, workers: map<nat, Worker>, landings: seq<Landing>, finished: seq<Finished>)

  /** How late an increment may land: so many milliseconds after its clock read, or at any time within the
      bucket that was read. */
  datatype Lateness = Within(delay: nat) | InOwnBucket {
    predicate Allows(w: Window, readAt: nat, now: nat) {
      match this
      case Within(delay) => now <= readAt + delay
      case InOwnBucket => Bucket(w, now) == Bucket(w, readAt)
    }

    /** The longest time past the end of its bucket, in milliseconds. */
    function Slack(): nat {
      if Within? then delay else 0
    }
  }

  datatype Setup = Setup(limits: Limits, minute: Lateness, hour: Lateness) {
    function Of(w: Window): Lateness {
      if w.Minute? then minute else hour
    }
  }

  datatype Step =
    | ReadClock(id: nat, user: string)
    | HitMinute(id: nat)
    | HitHour(id: nat)
    | Drop(id: nat)  // the request goes away, whatever it already did to the store
    | ForeignWrite(key: string, entry: Option<Entry>)
    | Tick(d: nat)

  ghost predicate Enabled(setup: Setup, s: Sys, step: Step) {
    match step
    case ReadClock(id, _) => id !in s.workers
    case HitMinute(id) =>
      id in s.workers && s.workers[id].HasRead? && setup.minute.Allows(Minute, s.workers[id].readAt, s.now)
    case HitHour(id) =>
      id in s.workers && s.workers[id].HalfDone? && setup.hour.Allows(Hour, s.workers[id].readAt, s.now)
    case Drop(id) => id in s.workers
    case ForeignWrite(key, _) => forall w, u, b :: key != RateLimitKey(w, u, b)
    case Tick(_) => true
  }

  function Next(s: Sys, step: Step): Sys
    requires step.HitMinute? || step.HitHour? ==> step.id in s.workers
    requires step.HitHour? ==> s.workers[step.id].HalfDone?
  {
    match step
    case ReadClock(id, user) => s.(workers := s.workers[id := HasRead(user, s.now)])
    case HitMinute(id) =>
      var k := s.workers[id];
      var (ks, r) := Hit(s.ks, Minute, k.user, k.readAt, s.now);
      if r.Err? then s.(ks := ks, workers := s.workers - {id})
      else s.(ks := ks,
              workers := s.workers[id := HalfDone(k.user, k.readAt, r.value)],
              landings := s.landings + [Landing(Minute, k.user, k.readAt, r.value)])
    case HitHour(id) =>
      var k := s.workers[id];
      var (ks, r) := Hit(s.ks, Hour, k.user, k.readAt, s.now);
      if r.Err? then s.(ks := ks, workers := s.workers - {id})
      else s.(ks := ks,
              workers := s.workers - {id},
              landings := s.landings + [Landing(Hour, k.user, k.readAt, r.value)],
              finished := s.finished + [Finished(k.user, k.readAt, k.minuteCount, r.value)])
    case Drop(id) => s.(workers := s.workers - {id})
    case ForeignWrite(key, Some(entry)) => s.(ks := s.ks[key := entry])
    case ForeignWrite(key, None) => s.(ks := s.ks - {key})
    case Tick(d) => s.(now := s.now + d)
  }

  // ---------------------------------------------------------------------------
  // Counting
  // ---------------------------------------------------------------------------

  predicate LandsIn(l: Landing, w: Window, user: string, b: nat) {
    l.w == w && l.user == user && Bucket(w, l.readAt) == b
  }

  /** How often the bucket's counter was created afresh. */
  function Starts(landings: seq<Landing>, w: Window, user: string, b: nat): nat {
    if landings == [] then 0
    else Starts(landings[..|landings| - 1], w, user, b) +
         (if LandsIn(landings[|landings| - 1], w, user, b) && landings[|landings| - 1].count == 1 then 1 else 0)
  }

  /** Increments of the bucket's counter that got back a count within the limit. */
  function Fitting(landings: seq<Landing>, limit: int, w: Window, user: string, b: nat): nat {
    if landings == [] then 0
    else Fitting(landings[..|landings| - 1], limit, w, user, b) +
         (if LandsIn(landings[|landings| - 1], w, user, b) && landings[|landings| - 1].count <= limit then 1 else 0)
  }

  predicate AdmittedHere(limits: Limits, f: Finished, w: Window, user: string, b: nat) {
    && f.user == user && Bucket(w, f.readAt) == b
    && Judge(limits, Clock(f.readAt), f.minuteCount, f.hourCount).allowed
  }

  /** Checks of `user` admitted for the bucket their clock read fell in. */
  function AdmittedFor(limits: Limits, finished: seq<Finished>, w: Window, user: string, b: nat): nat {
    if finished == [] then 0
    else AdmittedFor(limits, finished[..|finished| - 1], w, user, b) +
         (if AdmittedHere(limits, finished[|finished| - 1], w, user, b) then 1 else 0)
  }

  /** Workers that could still be admitted on the minute count they hold. */
  function Hopeful(limits: Limits, workers: map<nat, Worker>, w: Window, user: string, b: nat): set<nat> {
    set id | id in workers && w.Minute? && workers[id].HalfDone? && workers[id].user == user &&
             Bucket(Minute, workers[id].readAt) == b && workers[id].minuteCount <= limits.perMinute
  }

  // ---------------------------------------------------------------------------
  // The invariant
  // ---------------------------------------------------------------------------

  function Min(a: int, b: int): int {
    if a <= b then a else b
  }

  /** Lives of one counter do not overlap, the latest of the `starts` began soon enough, and each life admits
      at most the limit; `count` is where the latest stands. */
  ghost predicate Lives(
    size: nat, b: nat, slack: nat, limit: int, now: nat, starts: nat, fitting: nat, began: int, count: nat)
  {
    && size * b + size * (starts - 1) <= began <= now && began < size * (b + 1) + slack
    && fitting <= limit * (starts - 1) + Min(count, limit)
  }

  ghost predicate CounterInv(setup: Setup, s: Sys, w: Window, user: string, b: nat) {
    var key, size, limit := RateLimitKey(w, user, b), 1000 * Seconds(w), setup.limits.Of(w);
    var starts, fitting := Starts(s.landings, w, user, b), Fitting(s.landings, limit, w, user, b);
    if starts == 0 then key !in s.ks && fitting == 0
    else
      && key in s.ks && s.ks[key].value.Counter? && s.ks[key].value.count >= 1 && s.ks[key].expiry.Some?
      && Lives(size, b, setup.Of(w).Slack(), limit, s.now, starts, fitting, s.ks[key].expiry.value - size,
               s.ks[key].value.count)
  }

  ghost predicate AdmissionInv(setup: Setup, s: Sys, w: Window, user: string, b: nat) {
    AdmittedFor(setup.limits, s.finished, w, user, b) + |Hopeful(setup.limits, s.workers, w, user, b)| <=
    Fitting(s.landings, setup.limits.Of(w), w, user, b)
  }

  ghost predicate Inv(setup: Setup, s: Sys) {
    && (forall id | id in s.workers :: s.workers[id].readAt <= s.now)
    && (forall w, user, b :: CounterInv(setup, s, w, user, b))
    && (forall w, user, b :: AdmissionInv(setup, s, w, user, b))
  }

  lemma LandsInTime(l: Lateness, w: Window, readAt: nat, now: nat)
    requires l.Allows(w, readAt, now)
    ensures now < 1000 * Seconds(w) * (Bucket(w, readAt) + 1) + l.Slack()
  {
    BucketSpan(w, readAt);
    BucketSpan(w, now);
    hide Bucket;
  }

  /** What a landing adds to the counts of its own bucket. */
  lemma LandingCounts(landings: seq<Landing>, limit: int, w: Window, user: string, readAt: nat, count: nat)
    ensures var b, more := Bucket(w, readAt), landings + [Landing(w, user, readAt, count)];
            && Starts(more, w, user, b) == Starts(landings, w, user, b) + (if count == 1 then 1 else 0)
            && Fitting(more, limit, w, user, b) ==
               Fitting(landings, limit, w, user, b) + (if count <= limit then 1 else 0)
  {
    hide Bucket;
    assert (landings + [Landing(w, user, readAt, count)])[..|landings|] == landings;
  }

  /** An increment of bucket `b` can still land. */
  ghost predicate InReach(size: nat, b: nat, slack: nat, now: nat) {
    size * b <= now < size * (b + 1) + slack
  }

  lemma LandsInReach(l: Lateness, w: Window, readAt: nat, now: nat)
    requires readAt <= now && l.Allows(w, readAt, now)
    ensures InReach(1000 * Seconds(w), Bucket(w, readAt), l.Slack(), now)
  {
    BucketSpan(w, readAt);
    LandsInTime(l, w, readAt, now);
    hide Bucket;
  }

  lemma FirstLifeBegins(size: nat, b: nat, slack: nat, limit: int, now: nat)
    requires limit > 0 && InReach(size, b, slack, now)
    ensures Lives(size, b, slack, limit, now, 1, 1, now, 1)
  {
    assert size * (1 - 1) == 0 && limit * (1 - 1) == 0;
  }

  /** A life that begins once the previous one is over. */
  lemma NextLifeBegins(
    size: nat, b: nat, slack: nat, limit: int, now: nat, starts: nat, fitting: nat, began: int, count: nat)
    requires Lives(size, b, slack, limit, now, starts, fitting, began, count)
    requires limit > 0 && began + size <= now && InReach(size, b, slack, now)
    ensures Lives(size, b, slack, limit, now, starts + 1, fitting + 1, now, 1)
  {
    assert size * starts == size * (starts - 1) + size;
    assert limit * starts == limit * (starts - 1) + limit;
  }

  lemma LifeGoesOn(
    size: nat, b: nat, slack: nat, limit: int, now: nat, starts: nat, fitting: nat, began: int, count: nat)
    requires Lives(size, b, slack, limit, now, starts, fitting, began, count)
    ensures Lives(size, b, slack, limit, now, starts, fitting + (if count + 1 <= limit then 1 else 0), began, count + 1)
  {
  }

  lemma LimitIsPositive(limits: Limits, w: Window)
    requires ValidLimits(limits)
    ensures limits.Of(w) > 0
  {
  }

  /** What an increment leaves under its key. */
  lemma HitEffect(ks: Keyspace, w: Window, user: string, readAt: nat, now: nat)
    requires var key := RateLimitKey(w, user, Bucket(w, readAt)); key in ks ==> ks[key].value.Counter?
    ensures var key, (ks', r) := RateLimitKey(w, user, Bucket(w, readAt)), Hit(ks, w, user, readAt, now);
            && r.Ok? && key in ks'
            && match Live(ks, key, now)
               case None => r.value == 1 && ks'[key] == Entry(Counter(1), Some(now + 1000 * Seconds(w)))
               case Some(value) =>
                 var expiry := if r.value == 1 then Some(now + 1000 * Seconds(w)) else ks[key].expiry;
                 r.value == value.count + 1 && ks'[key] == Entry(Counter(r.value), expiry)
  {
    hide Bucket, RateLimitKey, Seconds;
  }

  /** A landing starts the counter afresh or raises it, and either way keeps its invariant. */
  lemma LandingKeepsCounter(setup: Setup, s: Sys, s': Sys, w: Window, user: string, readAt: nat)
    requires ValidLimits(setup.limits) && CounterInv(setup, s, w, user, Bucket(w, readAt))
    requires readAt <= s.now && setup.Of(w).Allows(w, readAt, s.now)
    requires s'.now == s.now && s'.ks == Hit(s.ks, w, user, readAt, s.now).0
    requires var r := Hit(s.ks, w, user, readAt, s.now).1;
             r.Ok? ==> s'.landings == s.landings + [Landing(w, user, readAt, r.value)]
    ensures Hit(s.ks, w, user, readAt, s.now).1.Ok?
    ensures CounterInv(setup, s', w, user, Bucket(w, readAt))
  {
    hide Bucket, RateLimitKey, Lateness.Allows, Lateness.Slack, Setup.Of, Limits.Of, Seconds, Hit;
    hide Starts, Fitting, Lives, InReach, ValidLimits;
    LimitIsPositive(setup.limits, w);
    LandsInReach(setup.Of(w), w, readAt, s.now);
    var b, size, limit := Bucket(w, readAt), 1000 * Seconds(w), setup.limits.Of(w);
    var slack := setup.Of(w).Slack();
    var key, r := RateLimitKey(w, user, b), Hit(s.ks, w, user, readAt, s.now).1;
    HitEffect(s.ks, w, user, readAt, s.now);
    LandingCounts(s.landings, limit, w, user, readAt, r.value);
    var starts, fitting := Starts(s.landings, w, user, b), Fitting(s.landings, limit, w, user, b);
    if starts == 0 {
      FirstLifeBegins(size, b, slack, limit, s.now);
    } else {
      var began, count := s.ks[key].expiry.value - size, s.ks[key].value.count;
      if Live(s.ks, key, s.now).None? {
        NextLifeBegins(size, b, slack, limit, s.now, starts, fitting, began, count);
      } else {
        LifeGoesOn(size, b, slack, limit, s.now, starts, fitting, began, count);
      }
    }
  }

  lemma OtherCountersKept(
    setup: Setup, s: Sys, s': Sys, w: Window, user: string, readAt: nat, w2: Window, user2: string, b2: nat)
    requires CounterInv(setup, s, w2, user2, b2)
    requires w2 != w || user2 != user || b2 != Bucket(w, readAt)
    requires s'.now == s.now && s'.ks == Hit(s.ks, w, user, readAt, s.now).0
    requires exists count :: s'.landings == s.landings + [Landing(w, user, readAt, count)]
    ensures CounterInv(setup, s', w2, user2, b2)
  {
    hide Bucket, RateLimitKey;
    if RateLimitKey(w, user, Bucket(w, readAt)) == RateLimitKey(w2, user2, b2) {
      RateLimitKeyInjective(w, user, Bucket(w, readAt), w2, user2, b2);
    }
    assert s'.landings[..|s.landings|] == s.landings;
  }

  lemma HitKeepsCounters(setup: Setup, s: Sys, s': Sys, w: Window, user: string, readAt: nat)
    requires ValidLimits(setup.limits) && forall v, u, b :: CounterInv(setup, s, v, u, b)
    requires readAt <= s.now && setup.Of(w).Allows(w, readAt, s.now)
    requires s'.now == s.now && s'.ks == Hit(s.ks, w, user, readAt, s.now).0
    requires var r := Hit(s.ks, w, user, readAt, s.now).1;
             r.Ok? ==> s'.landings == s.landings + [Landing(w, user, readAt, r.value)]
    ensures Hit(s.ks, w, user, readAt, s.now).1.Ok?
    ensures forall v, u, b :: CounterInv(setup, s', v, u, b)
  {
    hide CounterInv, Hit, Bucket, Lateness.Allows, Lateness.Slack;
    LandingKeepsCounter(setup, s, s', w, user, readAt);
    forall v, u, b
      ensures CounterInv(setup, s', v, u, b)
    {
      if v != w || u != user || b != Bucket(w, readAt) {
        OtherCountersKept(setup, s, s', w, user, readAt, v, u, b);
      }
    }
  }

  lemma ForeignKeepsCounters(setup: Setup, s: Sys, key: string, entry: Option<Entry>)
    requires Enabled(setup, s, ForeignWrite(key, entry)) && forall w, u, b :: CounterInv(setup, s, w, u, b)
    ensures forall w, u, b :: CounterInv(setup, Next(s, ForeignWrite(key, entry)), w, u, b)
  {
    var s' := Next(s, ForeignWrite(key, entry));
    hide Bucket, RateLimitKey;
    forall w, u, b
      ensures CounterInv(setup, s', w, u, b)
    {
      assert CounterInv(setup, s, w, u, b);
    }
  }

  lemma TickKeepsCounters(setup: Setup, s: Sys, s': Sys)
    requires s'.ks == s.ks && s'.landings == s.landings && s'.now >= s.now
    requires forall w, u, b :: CounterInv(setup, s, w, u, b)
    ensures forall w, u, b :: CounterInv(setup, s', w, u, b)
  {
    hide Bucket, RateLimitKey;
    forall w, u, b
      ensures CounterInv(setup, s', w, u, b)
    {
      assert CounterInv(setup, s, w, u, b);
    }
  }

  lemma SmallerIsFewer(a: set<nat>, b: set<nat>)
    requires a <= b
    ensures |a| <= |b|
  {
    if a != b {
      assert b == a + (b - a);
    }
  }

  /** A worker that leaves without finishing only gives up a place. */
  lemma LeavingKeepsAdmission(setup: Setup, s: Sys, s': Sys, w: Window, user: string, b: nat)
    requires AdmissionInv(setup, s, w, user, b)
    requires s'.landings == s.landings && s'.finished == s.finished
    requires Hopeful(setup.limits, s'.workers, w, user, b) <= Hopeful(setup.limits, s.workers, w, user, b)
    ensures AdmissionInv(setup, s', w, user, b)
  {
    SmallerIsFewer(Hopeful(setup.limits, s'.workers, w, user, b), Hopeful(setup.limits, s.workers, w, user, b));
  }

  /** A worker that landed its minute is hopeful if the count it got back fits. */
  lemma HalfDoneHopes(
    limits: Limits, workers: map<nat, Worker>, id: nat, k: Worker, count: nat, w: Window, user: string, b: nat)
    requires id in workers && workers[id] == k && k.HasRead?
    ensures |Hopeful(limits, workers[id := HalfDone(k.user, k.readAt, count)], w, user, b)| ==
            |Hopeful(limits, workers, w, user, b)| +
            if w.Minute? && k.user == user && Bucket(Minute, k.readAt) == b && count <= limits.perMinute then 1 else 0
  {
    hide Bucket;
    var before := Hopeful(limits, workers, w, user, b);
    var after := Hopeful(limits, workers[id := HalfDone(k.user, k.readAt, count)], w, user, b);
    if w.Minute? && k.user == user && Bucket(Minute, k.readAt) == b && count <= limits.perMinute {
      assert after == before + {id};
    } else {
      assert after == before;
    }
  }

  lemma LeaverHopes(limits: Limits, workers: map<nat, Worker>, id: nat, w: Window, user: string, b: nat)
    ensures var before := Hopeful(limits, workers, w, user, b);
            |Hopeful(limits, workers - {id}, w, user, b)| == |before| - if id in before then 1 else 0
  {
    hide Bucket;
    var before := Hopeful(limits, workers, w, user, b);
    assert Hopeful(limits, workers - {id}, w, user, b) == before - {id};
    assert id !in before ==> before - {id} == before;
  }

  lemma MinuteKeepsAdmission(setup: Setup, s: Sys, s': Sys, id: nat, count: nat, w: Window, user: string, b: nat)
    requires AdmissionInv(setup, s, w, user, b) && id in s.workers && s.workers[id].HasRead?
    requires var k := s.workers[id];
             && s'.workers == s.workers[id := HalfDone(k.user, k.readAt, count)]
             && s'.landings == s.landings + [Landing(Minute, k.user, k.readAt, count)]
             && s'.finished == s.finished
    ensures AdmissionInv(setup, s', w, user, b)
  {
    hide Bucket, Hopeful, AdmittedFor;
    assert s'.landings[..|s.landings|] == s.landings;
    HalfDoneHopes(setup.limits, s.workers, id, s.workers[id], count, w, user, b);
  }

  lemma HourKeepsAdmission(setup: Setup, s: Sys, s': Sys, id: nat, count: nat, w: Window, user: string, b: nat)
    requires AdmissionInv(setup, s, w, user, b) && id in s.workers && s.workers[id].HalfDone?
    requires var k := s.workers[id];
             && s'.workers == s.workers - {id}
             && s'.landings == s.landings + [Landing(Hour, k.user, k.readAt, count)]
             && s'.finished == s.finished + [Finished(k.user, k.readAt, k.minuteCount, count)]
    ensures AdmissionInv(setup, s', w, user, b)
  {
    var k := s.workers[id];
    assert w.Minute? && AdmittedHere(setup.limits, Finished(k.user, k.readAt, k.minuteCount, count), w, user, b) ==>
        id in Hopeful(setup.limits, s.workers, w, user, b);
    assert AdmittedHere(setup.limits, Finished(k.user, k.readAt, k.minuteCount, count), w, user, b) ==>
        count <= setup.limits.perHour;
    hide Bucket, Remaining, Judge, Hopeful;
    assert s'.landings[..|s.landings|] == s.landings && s'.finished[..|s.finished|] == s.finished;
    LeaverHopes(setup.limits, s.workers, id, w, user, b);
  }

  lemma StepKeepsInv(setup: Setup, s: Sys, step: Step)
    requires ValidLimits(setup.limits) && Inv(setup, s) && Enabled(setup, s, step)
    ensures Inv(setup, Next(s, step))
  {
    hide CounterInv, AdmissionInv, Hit, Bucket;
    var s' := Next(s, step);
    match step {
      case HitMinute(id) =>
        HitKeepsCounters(setup, s, s', Minute, s.workers[id].user, s.workers[id].readAt);
      case HitHour(id) =>
        HitKeepsCounters(setup, s, s', Hour, s.workers[id].user, s.workers[id].readAt);
      case ForeignWrite(key, entry) =>
        ForeignKeepsCounters(setup, s, key, entry);
      case _ =>
        TickKeepsCounters(setup, s, s');
    }
    forall w, u, b
      ensures AdmissionInv(setup, s', w, u, b)
    {
      assert AdmissionInv(setup, s, w, u, b);
      match step {
        case HitMinute(id) =>
          var r := Hit(s.ks, Minute, s.workers[id].user, s.workers[id].readAt, s.now).1;
          MinuteKeepsAdmission(setup, s, s', id, r.value, w, u, b);
        case HitHour(id) =>
          var r := Hit(s.ks, Hour, s.workers[id].user, s.workers[id].readAt, s.now).1;
          HourKeepsAdmission(setup, s, s', id, r.value, w, u, b);
        case _ =>
          LeavingKeepsAdmission(setup, s, s', w, u, b);
      }
    }
  }

  // ---------------------------------------------------------------------------
  // Every reachable state
  // ---------------------------------------------------------------------------

  ghost predicate Execution(setup: Setup, states: seq<Sys>, steps: seq<Step>) {
    && |states| == |steps| + 1
    && states[0] == Sys(map[], states[0].now, map[], [], [])
    && forall i | 0 <= i < |steps| :: Enabled(setup, states[i], steps[i]) && states[i + 1] == Next(states[i], steps[i])
  }

  lemma {:induction false} Reachable(setup: Setup, states: seq<Sys>, steps: seq<Step>, i: nat)
    requires ValidLimits(setup.limits) && Execution(setup, states, steps) && i < |states|
    ensures Inv(setup, states[i])
  {
    hide Next;
    if i > 0 {
      Reachable(setup, states, steps, i - 1);
      StepKeepsInv(setup, states[i - 1], steps[i - 1]);
    }
  }

  lemma StartsAreFew(size: nat, starts: int, delay: nat)
    requires size > 0 && starts >= 1 && size * (starts - 1) < size + delay
    ensures starts <= 1 + Properties.CeilDiv(delay, size)
  {
    var c := Properties.CeilDiv(delay, size);
    Properties.CeilDivCovers(delay, size);
    hide Properties.CeilDiv;
    assert size * (starts - 2 - c) == size * (starts - 1) - size - size * c;
    NegativeFactor(size, starts - 2 - c);
  }

  lemma NegativeFactor(size: nat, x: int)
    requires size > 0 && size * x < 0
    ensures x < 0
  {
  }

  lemma LivesAdmit(limit: nat, lives: nat, bound: nat, admitted: nat)
    requires 1 <= lives <= bound && admitted <= limit * (lives - 1) + limit
    ensures admitted <= limit * bound
  {
    assert limit * bound == limit * (lives - 1) + limit + limit * (bound - lives);
  }

  /** In every interleaving where increments land at most the given delay after the clock read, the checks
      admitted for one user and bucket number at most limit * (1 + ceil(delay / window)): the limit itself
      without delay or when increments land in their own bucket, however late in it, and twice the limit when
      the delay is within one window. */
  lemma DelayedWorkersAdmit(setup: Setup, states: seq<Sys>, steps: seq<Step>, i: nat, w: Window, user: string, b: nat)
    requires ValidLimits(setup.limits) && Execution(setup, states, steps) && i < |states|
    ensures AdmittedFor(setup.limits, states[i].finished, w, user, b) <=
            setup.limits.Of(w) * (1 + Properties.CeilDiv(setup.Of(w).Slack(), 1000 * Seconds(w)))
    ensures setup.Of(w).InOwnBucket? ==>
              AdmittedFor(setup.limits, states[i].finished, w, user, b) <= setup.limits.Of(w)
  {
    Reachable(setup, states, steps, i);
    InvAdmits(setup, states[i], w, user, b);
  }

  lemma InvAdmits(setup: Setup, s: Sys, w: Window, user: string, b: nat)
    requires ValidLimits(setup.limits) && Inv(setup, s)
    ensures AdmittedFor(setup.limits, s.finished, w, user, b) <=
            setup.limits.Of(w) * (1 + Properties.CeilDiv(setup.Of(w).Slack(), 1000 * Seconds(w)))
    ensures setup.Of(w).InOwnBucket? ==> AdmittedFor(setup.limits, s.finished, w, user, b) <= setup.limits.Of(w)
  {
    assert Properties.CeilDiv(0, 1000 * Seconds(w)) == 0;
    hide Bucket, RateLimitKey, Starts, Fitting, AdmittedFor, Hopeful, Properties.CeilDiv, Seconds;
    var size, limit, slack := 1000 * Seconds(w), setup.limits.Of(w), setup.Of(w).Slack();
    var starts, bound := Starts(s.landings, w, user, b), 1 + Properties.CeilDiv(slack, size);
    assert CounterInv(setup, s, w, user, b) && AdmissionInv(setup, s, w, user, b);
    if starts == 0 {
      assert limit * bound >= 0;
    } else {
      var began := s.ks[RateLimitKey(w, user, b)].expiry.value - size;
      assert size * (b + 1) == size * b + size;
      StartsAreFew(size, starts, slack);
      LivesAdmit(limit, starts, bound, AdmittedFor(setup.limits, s.finished, w, user, b));
    }
    assert setup.Of(w).InOwnBucket? ==> limit * bound == limit;
  }

  /** A check nobody interrupts is three steps of the interleaved system: reading the clock and the two increments,
      with the store and the verdict of the check on values. */
  lemma CheckInSteps(setup: Setup, s: Sys, id: nat, user: string) returns (s1: Sys, s2: Sys, s3: Sys)
    requires id !in s.workers && CheckAt(s.ks, setup.limits, user, s.now).1.Ok?
    ensures Enabled(setup, s, ReadClock(id, user)) && s1 == Next(s, ReadClock(id, user))
    ensures Enabled(setup, s1, HitMinute(id)) && s2 == Next(s1, HitMinute(id))
    ensures Enabled(setup, s2, HitHour(id)) && s3 == Next(s2, HitHour(id))
    ensures s3.ks == CheckAt(s.ks, setup.limits, user, s.now).0 && s3.workers == s.workers && s3.now == s.now
    ensures |s3.finished| == |s.finished| + 1
    ensures var f := s3.finished[|s.finished|];
            Judge(setup.limits, Clock(f.readAt), f.minuteCount, f.hourCount) ==
            CheckAt(s.ks, setup.limits, user, s.now).1.value
  {
    hide Hit, Judge, Bucket;
    s1 := Next(s, ReadClock(id, user));
    s2 := Next(s1, HitMinute(id));
    s3 := Next(s2, HitHour(id));
    assert s.workers[id := s2.workers[id]] - {id} == s.workers;
  }
}
