/** The bounds on delayed workers cannot be improved: for every delay some execution attains them. */
module RateLimiterTightness {
  import opened Prelude
  import opened Keys
  import opened Redis
  import opened RateLimiter
  import opened RateLimiterWorkers
  import opened StepSystems
  import Properties = RateLimiterProperties

  /** The interleaved checks as a system. */
  ghost function Checks(setup: Setup): System<Sys, Step> {
    System((s: Sys, step: Step) => Enabled(setup, s, step),
           (s: Sys, step: Step) => if Enabled(setup, s, step) then Next(s, step) else s)
  }

  lemma Takes(setup: Setup, s: Sys, step: Step)
    requires Enabled(setup, s, step)
    ensures Runs(Checks(setup), s, [step], Next(s, step))
  {
    hide Next;
    RunsOne(Checks(setup), s, step);
  }

  // ---------------------------------------------------------------------------
  // One life of the counter, used to the full
  // ---------------------------------------------------------------------------

  function Other(w: Window): Window {
    if w.Minute? then Hour else Minute
  }

  function Size(w: Window): (size: nat)
    ensures size > 0
  {
    1000 * Seconds(w)
  }

  /** Workers `from` up to `upTo` have read the clock at `readAt`, in the first window, and may still land. */
  ghost predicate Waiting(setup: Setup, s: Sys, w: Window, user: string, readAt: nat, from: nat, upTo: nat) {
    && (forall id | from <= id < upTo :: id in s.workers && s.workers[id] == HasRead(user, readAt))
    && Bucket(w, readAt) == 0
    && setup.minute.Allows(Minute, readAt, s.now) && setup.hour.Allows(Hour, readAt, s.now)
  }

  /** The first window's live count is `c`, and what is there will be gone a window from now. */
  ghost predicate Stands(s: Sys, w: Window, user: string, c: nat) {
    var key := RateLimitKey(w, user, 0);
    && Live(s.ks, key, s.now) == (if c == 0 then None else Some(Counter(c)))
    && (c > 0 ==> Expired(s.ks[key], s.now + Size(w)))
  }

  ghost predicate AtMost(v: Option<Value>, bound: nat) {
    match v
    case None => true
    case Some(Counter(h)) => h <= bound
    case Some(_) => false
  }

  /** All live counts of the other window are at most `bound`. */
  ghost predicate OthersStand(s: Sys, w: Window, user: string, bound: nat) {
    forall b :: AtMost(Live(s.ks, RateLimitKey(Other(w), user, b), s.now), bound)
  }

  lemma KeysDiffer(w: Window, user: string, b: nat, b': nat)
    ensures RateLimitKey(w, user, b) != RateLimitKey(Other(w), user, b')
  {
    if RateLimitKey(w, user, b) == RateLimitKey(Other(w), user, b') {
      RateLimitKeyInjective(w, user, b, Other(w), user, b');
    }
  }

  /** The increment of the window's own counter. */
  lemma HitStands(s: Sys, w: Window, user: string, readAt: nat, c: nat, bound: nat)
    requires Bucket(w, readAt) == 0 && Stands(s, w, user, c) && OthersStand(s, w, user, bound)
    ensures var (ks, r) := Hit(s.ks, w, user, readAt, s.now);
            && r == Ok(c + 1) && Stands(s.(ks := ks), w, user, c + 1) && OthersStand(s.(ks := ks), w, user, bound)
  {
    hide Bucket, RateLimitKey;
    var ks := Hit(s.ks, w, user, readAt, s.now).0;
    forall b
      ensures AtMost(Live(ks, RateLimitKey(Other(w), user, b), s.now), bound)
    {
      KeysDiffer(w, user, 0, b);
      assert AtMost(Live(s.ks, RateLimitKey(Other(w), user, b), s.now), bound);
    }
  }

  /** The increment of the other window's counter. */
  lemma OtherHitStands(s: Sys, w: Window, user: string, readAt: nat, c: nat, bound: nat)
    requires Stands(s, w, user, c) && OthersStand(s, w, user, bound)
    ensures var (ks, r) := Hit(s.ks, Other(w), user, readAt, s.now);
            && r.Ok? && r.value <= bound + 1
            && Stands(s.(ks := ks), w, user, c) && OthersStand(s.(ks := ks), w, user, bound + 1)
  {
    hide Bucket, RateLimitKey;
    var mine := Bucket(Other(w), readAt);
    var ks := Hit(s.ks, Other(w), user, readAt, s.now).0;
    KeysDiffer(w, user, 0, mine);
    assert AtMost(Live(s.ks, RateLimitKey(Other(w), user, mine), s.now), bound);
    forall b
      ensures AtMost(Live(ks, RateLimitKey(Other(w), user, b), s.now), bound + 1)
    {
      assert AtMost(Live(s.ks, RateLimitKey(Other(w), user, b), s.now), bound);
    }
  }

  /** Both increments of one check, in the program's order. */
  lemma BothHits(s: Sys, w: Window, user: string, readAt: nat, c: nat, bound: nat)
    requires Bucket(w, readAt) == 0 && Stands(s, w, user, c) && OthersStand(s, w, user, bound)
    ensures var (ks, minute) := Hit(s.ks, Minute, user, readAt, s.now);
            var (ks', hour) := Hit(ks, Hour, user, readAt, s.now);
            && minute.Ok? && hour.Ok?
            && (if w.Minute? then minute.value else hour.value) == c + 1
            && (if w.Minute? then hour.value else minute.value) <= bound + 1
            && Stands(s.(ks := ks'), w, user, c + 1) && OthersStand(s.(ks := ks'), w, user, bound + 1)
  {
    hide Bucket, Hit, Stands, OthersStand;
    if w.Minute? {
      HitStands(s, w, user, readAt, c, bound);
      OtherHitStands(s.(ks := Hit(s.ks, Minute, user, readAt, s.now).0), w, user, readAt, c + 1, bound);
    } else {
      OtherHitStands(s, w, user, readAt, c, bound);
      HitStands(s.(ks := Hit(s.ks, Minute, user, readAt, s.now).0), w, user, readAt, c, bound + 1);
    }
  }

  lemma StandsByStore(s: Sys, s': Sys, w: Window, user: string, c: nat, bound: nat)
    requires s'.ks == s.ks && s'.now == s.now && Stands(s, w, user, c) && OthersStand(s, w, user, bound)
    ensures Stands(s', w, user, c) && OthersStand(s', w, user, bound)
  {
    hide RateLimitKey, AtMost;
  }

  lemma AdmitOne(setup: Setup, s: Sys, w: Window, user: string, readAt: nat, id: nat, c: nat, bound: nat)
    returns (steps: seq<Step>, s': Sys)
    requires Waiting(setup, s, w, user, readAt, id, id + 1)
    requires Stands(s, w, user, c) && OthersStand(s, w, user, bound)
    requires c < setup.limits.Of(w) && bound < setup.limits.Of(Other(w))
    ensures Runs(Checks(setup), s, steps, s')
    ensures s'.now == s.now && s'.workers == s.workers - {id}
    ensures Stands(s', w, user, c + 1) && OthersStand(s', w, user, bound + 1)
    ensures AdmittedFor(setup.limits, s'.finished, w, user, 0) ==
            AdmittedFor(setup.limits, s.finished, w, user, 0) + 1
  {
    hide Hit, Bucket, Lateness.Allows, Stands, OthersStand, Runs, Remaining;
    BothHits(s, w, user, readAt, c, bound);
    var a, b := HitMinute(id), HitHour(id);
    var mid := Next(s, a);
    Takes(setup, s, a);
    Takes(setup, mid, b);
    s' := Next(mid, b);
    RunsChain(Checks(setup), s, [a], mid, [b], s');
    steps := [a] + [b];
    assert s'.finished[..|s.finished|] == s.finished;
    StandsByStore(s.(ks := s'.ks), s', w, user, c + 1, bound + 1);
  }

  lemma {:induction false} AdmitMany(
    setup: Setup, s: Sys, w: Window, user: string, readAt: nat, from: nat, upTo: nat, end: nat, c: nat, bound: nat)
    returns (steps: seq<Step>, s': Sys)
    requires from <= upTo <= end && Waiting(setup, s, w, user, readAt, from, end)
    requires Stands(s, w, user, c) && OthersStand(s, w, user, bound)
    requires c + (upTo - from) <= setup.limits.Of(w) && bound + (upTo - from) <= setup.limits.Of(Other(w))
    ensures Runs(Checks(setup), s, steps, s')
    ensures s'.now == s.now && Waiting(setup, s', w, user, readAt, upTo, end)
    ensures forall id :: id in s'.workers <==> id in s.workers && !(from <= id < upTo)
    ensures Stands(s', w, user, c + (upTo - from)) && OthersStand(s', w, user, bound + (upTo - from))
    ensures AdmittedFor(setup.limits, s'.finished, w, user, 0) ==
            AdmittedFor(setup.limits, s.finished, w, user, 0) + (upTo - from)
    decreases upTo - from
  {
    hide Bucket, Lateness.Allows, Stands, OthersStand, Runs, AdmittedFor;
    if from == upTo {
      steps, s' := [], s;
      RunsNothing(Checks(setup), s);
    } else {
      var a, mid := AdmitOne(setup, s, w, user, readAt, from, c, bound);
      var b;
      b, s' := AdmitMany(setup, mid, w, user, readAt, from + 1, upTo, end, c + 1, bound + 1);
      RunsChain(Checks(setup), s, a, mid, b, s');
      steps := a + b;
    }
  }

  // ---------------------------------------------------------------------------
  // All lives
  // ---------------------------------------------------------------------------

  lemma {:induction false} ReadMany(setup: Setup, s: Sys, user: string, from: nat, upTo: nat)
    returns (steps: seq<Step>, s': Sys)
    requires from <= upTo && forall id | from <= id < upTo :: id !in s.workers
    ensures Runs(Checks(setup), s, steps, s')
    ensures s' == s.(workers := s'.workers)
    ensures forall id :: id in s'.workers <==> id in s.workers || from <= id < upTo
    ensures forall id | from <= id < upTo :: s'.workers[id] == HasRead(user, s.now)
    ensures forall id | id in s.workers :: s'.workers[id] == s.workers[id]
    decreases upTo - from
  {
    hide Runs;
    if from == upTo {
      steps, s' := [], s;
      RunsNothing(Checks(setup), s);
    } else {
      var a := ReadClock(from, user);
      Takes(setup, s, a);
      var mid := Next(s, a);
      var b;
      b, s' := ReadMany(setup, mid, user, from + 1, upTo);
      RunsChain(Checks(setup), s, [a], mid, b, s');
      steps := [a] + b;
    }
  }

  lemma Waits(setup: Setup, s: Sys, d: nat) returns (s': Sys)
    ensures Runs(Checks(setup), s, [Tick(d)], s') && s' == s.(now := s.now + d)
  {
    Takes(setup, s, Tick(d));
    s' := Next(s, Tick(d));
  }

  /** Time alone never raises a count, and a whole window of it ends the counter's life. */
  lemma StandsInTime(s: Sys, s': Sys, w: Window, user: string, c: nat, bound: nat)
    requires Stands(s, w, user, c) && OthersStand(s, w, user, bound) && s'.ks == s.ks && s'.now >= s.now
    ensures OthersStand(s', w, user, bound)
    ensures s'.now >= s.now + Size(w) ==> Stands(s', w, user, 0)
  {
    hide RateLimitKey;
    forall b
      ensures AtMost(Live(s'.ks, RateLimitKey(Other(w), user, b), s'.now), bound)
    {
      assert AtMost(Live(s.ks, RateLimitKey(Other(w), user, b), s.now), bound);
    }
  }

  ghost predicate Roomy(setup: Setup, w: Window) {
    setup.Of(w).Within? && setup.Of(Other(w)).Within? && setup.Of(w).delay <= setup.Of(Other(w)).delay
  }

  lemma StillAllowed(setup: Setup, w: Window, readAt: nat, now: nat)
    requires Roomy(setup, w) && now <= readAt + setup.Of(w).delay
    ensures setup.minute.Allows(Minute, readAt, now) && setup.hour.Allows(Hour, readAt, now)
  {
  }

  /** The waiting workers, a full limit of them each window, all admitted for the first window. */
  lemma {:induction false} LivesInTurn(
    setup: Setup, s: Sys, w: Window, user: string, readAt: nat, done: nat, lives: nat, l: nat)
    returns (steps: seq<Step>, s': Sys)
    requires l == setup.limits.Of(w) && Roomy(setup, w)
    requires Waiting(setup, s, w, user, readAt, done, done + lives * l)
    requires OthersStand(s, w, user, done) && done + lives * l <= setup.limits.Of(Other(w))
    requires Stands(s, w, user, 0)
    requires lives > 0 ==> s.now + Size(w) * (lives - 1) <= readAt + setup.Of(w).delay
    ensures Runs(Checks(setup), s, steps, s')
    ensures AdmittedFor(setup.limits, s'.finished, w, user, 0) ==
            AdmittedFor(setup.limits, s.finished, w, user, 0) + lives * l
    decreases lives
  {
    hide Bucket, Stands, OthersStand, Runs, AdmittedFor, Size, Setup.Of, Limits.Of, Lateness.Allows, Roomy;
    if lives == 0 {
      steps, s' := [], s;
      RunsNothing(Checks(setup), s);
    } else {
      assert lives * l == l + (lives - 1) * l && (lives - 1) * l >= 0;
      var a, mid := AdmitMany(setup, s, w, user, readAt, done, done + l, done + lives * l, 0, done);
      if lives == 1 {
        steps, s' := a, mid;
      } else {
        assert Size(w) * (lives - 1) == Size(w) + Size(w) * (lives - 2) && Size(w) * (lives - 2) >= 0;
        var wait := Tick(Size(w));
        var next := Waits(setup, mid, Size(w));
        StandsInTime(mid, next, w, user, l, done + l);
        StillAllowed(setup, w, readAt, next.now);
        var b;
        b, s' := LivesInTurn(setup, next, w, user, readAt, done + l, lives - 1, l);
        RunsChain(Checks(setup), s, a, mid, [wait], next);
        RunsChain(Checks(setup), s, a + [wait], next, b, s');
        steps := a + [wait] + b;
      }
    }
  }

  lemma CeilDivBelow(a: nat, b: nat)
    requires b > 0
    ensures Properties.CeilDiv(a, b) > 0 ==> b * (Properties.CeilDiv(a, b) - 1) < a
  {
    var q, r := (a + b - 1) / b, (a + b - 1) % b;
    assert a + b - 1 == b * q + r;
    assert b * (q - 1) == b * q - b;
  }

  lemma FirstBucket(w: Window, t: nat)
    requires t < Size(w)
    ensures Bucket(w, t) == 0
  {
    Properties.SameBucket(w, t, 0);
  }

  /** A full limit of checks at time 0, all admitted. */
  lemma FirstLife(setup: Setup, w: Window, user: string, l: nat) returns (steps: seq<Step>, s: Sys)
    requires l == setup.limits.Of(w) && l <= setup.limits.Of(Other(w)) && Roomy(setup, w)
    ensures Runs(Checks(setup), Sys(map[], 0, map[], [], []), steps, s)
    ensures s.now == 0 && s.workers == map[] && Stands(s, w, user, l) && OthersStand(s, w, user, l)
    ensures AdmittedFor(setup.limits, s.finished, w, user, 0) == l
  {
    var start := Sys(map[], 0, map[], [], []);
    FirstBucket(w, 0);
    StillAllowed(setup, w, 0, 0);
    assert Stands(start, w, user, 0) && OthersStand(start, w, user, 0);
    assert AdmittedFor(setup.limits, start.finished, w, user, 0) == 0;
    hide Runs, Bucket, Stands, OthersStand, AdmittedFor, Lateness.Allows;
    var a, mid := ReadMany(setup, start, user, 0, l);
    StandsByStore(start, mid, w, user, 0, 0);
    var b;
    b, s := AdmitMany(setup, mid, w, user, 0, 0, l, l, 0, 0);
    RunsChain(Checks(setup), start, a, mid, b, s);
    steps := a + b;
  }

  /** Workers that read the clock in the window's last millisecond land in its later lives. */
  lemma LaterLives(setup: Setup, s: Sys, w: Window, user: string, l: nat, lives: nat)
    returns (steps: seq<Step>, s': Sys)
    requires l == setup.limits.Of(w) && Roomy(setup, w) && lives > 0
    requires l + lives * l <= setup.limits.Of(Other(w)) && Size(w) * (lives - 1) < setup.Of(w).delay
    requires s.now == 0 && s.workers == map[] && Stands(s, w, user, l) && OthersStand(s, w, user, l)
    ensures Runs(Checks(setup), s, steps, s')
    ensures AdmittedFor(setup.limits, s'.finished, w, user, 0) ==
            AdmittedFor(setup.limits, s.finished, w, user, 0) + lives * l
  {
    hide Runs, Bucket, Stands, OthersStand, AdmittedFor, Size, Setup.Of, Limits.Of, Lateness.Allows, Roomy;
    var last := Size(w) - 1;
    FirstBucket(w, last);
    assert lives * l >= 0;
    var s1 := Waits(setup, s, last);
    var a, s2 := ReadMany(setup, s1, user, l, l + lives * l);
    var s3 := Waits(setup, s2, 1);
    StandsInTime(s, s3, w, user, l, l);
    assert Size(w) * (lives - 1) >= 0;
    StillAllowed(setup, w, last, s3.now);
    var b;
    b, s' := LivesInTurn(setup, s3, w, user, last, l, lives, l);
    RunsChain(Checks(setup), s, [Tick(last)], s1, a, s2);
    RunsChain(Checks(setup), s, [Tick(last)] + a, s2, [Tick(1)], s3);
    RunsChain(Checks(setup), s, [Tick(last)] + a + [Tick(1)], s3, b, s');
    steps := [Tick(last)] + a + [Tick(1)] + b;
  }

  /** For the minute and for the hour, for every limit and every delay, an execution in which exactly
      limit * (1 + ceil(delay / window)) checks of one user are admitted for one window: twice the limit for
      any positive delay up to a window. The other window must leave room: a limit that high, and no shorter
      a delay. */
  lemma DelayBoundIsAttained(setup: Setup, w: Window, user: string) returns (states: seq<Sys>, steps: seq<Step>)
    requires ValidLimits(setup.limits) && Roomy(setup, w)
    requires setup.limits.Of(w) * (1 + Properties.CeilDiv(setup.Of(w).delay, Size(w))) <= setup.limits.Of(Other(w))
    ensures Execution(setup, states, steps)
    ensures AdmittedFor(setup.limits, states[|steps|].finished, w, user, 0) ==
            setup.limits.Of(w) * (1 + Properties.CeilDiv(setup.Of(w).delay, Size(w)))
  {
    var start := Sys(map[], 0, map[], [], []);
    var l: nat, lives := setup.limits.Of(w), Properties.CeilDiv(setup.Of(w).delay, Size(w));
    CeilDivBelow(setup.Of(w).delay, Size(w));
    hide Properties.CeilDiv, Runs, Bucket, AdmittedFor, Stands, OthersStand, Size, Setup.Of, Limits.Of, Roomy;
    assert l * (1 + lives) == l + lives * l && lives * l >= 0;
    var a, mid := FirstLife(setup, w, user, l);
    var s := mid;
    steps := a;
    if lives > 0 {
      var b;
      b, s := LaterLives(setup, mid, w, user, l, lives);
      RunsChain(Checks(setup), start, a, mid, b, s);
      steps := a + b;
    }
    states := RunsVisit(Checks(setup), start, steps, s);
  }
}
