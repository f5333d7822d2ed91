/** What callers of the rate limiter can count on, stated over the full log. */
module RateLimiterProperties {
  import opened Prelude
  import opened Keys
  import opened RateLimiter

  // ---------------------------------------------------------------------------
  // Admission within any stretch of time
  // ---------------------------------------------------------------------------

  predicate AdmittedAt(limits: Limits, events: seq<Event>, i: nat, user: string, from: nat, to: nat)
    requires i < |events|
  {
    && events[i].Checked? && events[i].user == user && from <= events[i].at < to
    && Verdict(limits, events, i).allowed
  }

  /** Checks of `user` admitted in [from, to). */
  function Admitted(limits: Limits, events: seq<Event>, user: string, from: nat, to: nat): nat {
    if events == [] then 0
    else Admitted(limits, events[..|events| - 1], user, from, to) +
         (if AdmittedAt(limits, events, |events| - 1, user, from, to) then 1 else 0)
  }

  lemma {:induction false} AdmittedSplits(
    limits: Limits, events: seq<Event>, user: string, from: nat, mid: nat, to: nat)
    requires from <= mid <= to
    ensures Admitted(limits, events, user, from, to) ==
            Admitted(limits, events, user, from, mid) + Admitted(limits, events, user, mid, to)
  {
    hide Verdict;
    if events != [] {
      AdmittedSplits(limits, events[..|events| - 1], user, from, mid, to);
    }
  }

  lemma AllowedWithinLimit(limits: Limits, events: seq<Event>, i: nat, w: Window)
    requires i < |events| && events[i].Checked? && Verdict(limits, events, i).allowed
    ensures CountIn(events[..i], w, events[i].user, Bucket(w, events[i].at)) < limits.Of(w)
  {
    hide Bucket, Remaining;
  }

  lemma {:induction false} OneBucketAdmits(
    limits: Limits, events: seq<Event>, w: Window, user: string, bucket: nat, from: nat, to: nat)
    requires ValidLimits(limits)
    requires forall t: nat | from <= t < to :: Bucket(w, t) == bucket
    ensures Admitted(limits, events, user, from, to) <= limits.Of(w)
    ensures Admitted(limits, events, user, from, to) <= CountIn(events, w, user, bucket)
  {
    hide Verdict, Bucket;
    if events != [] {
      var n := |events| - 1;
      OneBucketAdmits(limits, events[..n], w, user, bucket, from, to);
      if AdmittedAt(limits, events, n, user, from, to) {
        AllowedWithinLimit(limits, events, n, w);
      }
    }
  }

  lemma SameBucket(w: Window, t: nat, k: nat)
    requires 1000 * Seconds(w) * k <= t < 1000 * Seconds(w) * (k + 1)
    ensures Bucket(w, t) == k
  {
    if w.Minute? {
      assert Seconds(w) == 60;
    } else {
      assert Seconds(w) == 3600;
    }
  }

  lemma {:induction false} BucketsAdmit(
    limits: Limits, events: seq<Event>, w: Window, user: string, from: nat, to: nat, k: nat, n: nat)
    requires ValidLimits(limits)
    requires 1000 * Seconds(w) * k <= from && to <= 1000 * Seconds(w) * (k + n)
    ensures Admitted(limits, events, user, from, to) <= n * limits.Of(w)
    decreases n
  {
    hide Verdict, Bucket;
    var size := 1000 * Seconds(w);
    if n == 0 || to <= from {
      assert n == 0 ==> size * (k + n) == size * k;
      NothingAdmitted(limits, events, user, from, to);
      assert n * limits.Of(w) >= 0;
    } else {
      assert size * (k + n) == size * (k + 1) + size * (n - 1) && size * (k + 1 + (n - 1)) == size * (k + n);
      var edge := size * (k + 1);
      var mid := if to <= edge then to else if from <= edge then edge else from;
      AdmittedSplits(limits, events, user, from, mid, to);
      forall t: nat | from <= t < mid
        ensures Bucket(w, t) == k
      {
        SameBucket(w, t, k);
      }
      OneBucketAdmits(limits, events, w, user, k, from, mid);
      if to <= edge {
        NothingAdmitted(limits, events, user, mid, to);
        assert (n - 1) * limits.Of(w) >= 0;
      } else {
        BucketsAdmit(limits, events, w, user, mid, to, k + 1, n - 1);
      }
      assert n * limits.Of(w) == (n - 1) * limits.Of(w) + limits.Of(w);
    }
  }

  lemma {:induction false} NothingAdmitted(limits: Limits, events: seq<Event>, user: string, from: nat, to: nat)
    requires to <= from
    ensures Admitted(limits, events, user, from, to) == 0
  {
    hide Verdict;
    if events != [] {
      NothingAdmitted(limits, events[..|events| - 1], user, from, to);
    }
  }

  function CeilDiv(a: nat, b: nat): nat
    requires b > 0
  {
    (a + b - 1) / b
  }

  lemma CeilDivCovers(a: nat, b: nat)
    requires b > 0
    ensures a <= b * CeilDiv(a, b)
  {
    var s := a + b - 1;
    assert s == b * (s / b) + s % b;
  }

  lemma WindowAdmitsFor(limits: Limits, events: seq<Event>, user: string, from: nat, span: nat, w: Window)
    requires ValidLimits(limits)
    ensures Admitted(limits, events, user, from, from + span) <= (CeilDiv(span, 1000 * Seconds(w)) + 1) * limits.Of(w)
  {
    var size := 1000 * Seconds(w);
    var k, n := Bucket(w, from), CeilDiv(span, size);
    BucketSpan(w, from);
    CeilDivCovers(span, size);
    hide CeilDiv, Bucket, Admitted, Seconds;
    assert size * (k + (n + 1)) == size * (k + 1) + size * n;
    BucketsAdmit(limits, events, w, user, from, from + span, k, n + 1);
  }

  /** Any stretch of `span` milliseconds admits at most limit * (ceil(span / window) + 1) checks of one
      user, for the minute and for the hour. */
  lemma WindowAdmits(limits: Limits, events: seq<Event>, user: string, from: nat, span: nat)
    requires ValidLimits(limits)
    ensures Admitted(limits, events, user, from, from + span) <= (CeilDiv(span, 60_000) + 1) * limits.perMinute
    ensures Admitted(limits, events, user, from, from + span) <= (CeilDiv(span, 3_600_000) + 1) * limits.perHour
  {
    hide CeilDiv, Admitted;
    WindowAdmitsFor(limits, events, user, from, span, Minute);
    WindowAdmitsFor(limits, events, user, from, span, Hour);
  }

  // ---------------------------------------------------------------------------
  // Retry-After
  // ---------------------------------------------------------------------------

  /** When the hour is exceeded, waiting for the hour is always the longer wait. */
  lemma HourWaitDominates(limits: Limits, now: nat, minuteCount: nat, hourCount: nat)
    requires hourCount > limits.perHour
    ensures Judge(limits, now, minuteCount, hourCount).retryAfterSeconds == Remaining(Hour, now)
  {
    HourOutlastsMinute(now);
    hide Remaining;
  }

  lemma HourOutlastsMinute(now: nat)
    ensures Remaining(Hour, now) >= Remaining(Minute, now)
  {
    assert now % 3600 % 60 == now % 60;
  }

  lemma {:induction false} CountGrows(events: seq<Event>, i: nat, j: nat, w: Window, user: string, bucket: nat)
    requires i < j <= |events|
    ensures CountIn(events[..j], w, user, bucket) >=
            CountIn(events[..i], w, user, bucket) + if Hits(events[i], w, user, bucket) then 1 else 0
    decreases j
  {
    hide Hits;
    assert events[..j][..j - 1] == events[..j - 1];
    if i < j - 1 {
      CountGrows(events, i, j - 1, w, user, bucket);
    }
  }

  lemma {:induction false} CountIsZero(events: seq<Event>, j: nat, w: Window, user: string, bucket: nat)
    requires j <= |events|
    requires forall k | 0 <= k < j :: !Hits(events[k], w, user, bucket)
    ensures CountIn(events[..j], w, user, bucket) == 0
  {
    hide Hits;
    if j > 0 {
      assert events[..j][..j - 1] == events[..j - 1];
      CountIsZero(events, j - 1, w, user, bucket);
    }
  }

  lemma {:induction false} CountStays(events: seq<Event>, i: nat, j: nat, w: Window, user: string, bucket: nat)
    requires i < j <= |events| && Hits(events[i], w, user, bucket)
    requires forall k | i < k < j :: !Hits(events[k], w, user, bucket)
    ensures CountIn(events[..j], w, user, bucket) == CountIn(events[..i], w, user, bucket) + 1
    decreases j
  {
    hide Hits;
    assert events[..j][..j - 1] == events[..j - 1];
    if i < j - 1 {
      CountStays(events, i, j - 1, w, user, bucket);
    }
  }

  /** Within `Remaining` seconds the bucket is the same; after exactly that many it is the next one. */
  lemma RemainingIsExact(w: Window, now: nat, later: nat)
    requires now <= later <= now + Remaining(w, now)
    ensures later / Seconds(w) == now / Seconds(w) + if later == now + Remaining(w, now) then 1 else 0
  {
    if w.Minute? {
      assert Seconds(w) == 60;
    } else {
      assert Seconds(w) == 3600;
    }
  }

  /** A counter over its limit stays over it for the rest of the bucket. */
  lemma ExceededStaysExceeded(limits: Limits, events: seq<Event>, i: nat, j: nat, w: Window)
    requires History(events) && i < j < |events| && events[i].Checked? && events[j].Checked?
    requires events[j].user == events[i].user
    requires CountIn(events[..i], w, events[i].user, Bucket(w, events[i].at)) + 1 > limits.Of(w)
    requires Clock(events[j].at) < Clock(events[i].at) + Remaining(w, Clock(events[i].at))
    ensures !Verdict(limits, events, j).allowed
  {
    assert Clock(events[i].at) <= Clock(events[j].at);
    RemainingIsExact(w, Clock(events[i].at), Clock(events[j].at));
    CountGrows(events, i, j, w, events[i].user, Bucket(w, events[i].at));
    hide Remaining;
  }

  /** After a refusal, no check by the same user is admitted before Retry-After has passed. */
  lemma RetryAfterBlocks(limits: Limits, events: seq<Event>, i: nat, j: nat)
    requires History(events) && i < j < |events| && events[i].Checked? && events[j].Checked?
    requires events[j].user == events[i].user && !Verdict(limits, events, i).allowed
    requires Clock(events[j].at) < Clock(events[i].at) + Verdict(limits, events, i).retryAfterSeconds
    ensures !Verdict(limits, events, j).allowed
  {
    var u, now := events[i].user, Clock(events[i].at);
    var minuteCount := CountIn(events[..i], Minute, u, Bucket(Minute, events[i].at)) + 1;
    var hourCount := CountIn(events[..i], Hour, u, Bucket(Hour, events[i].at)) + 1;
    hide Bucket, Remaining;
    if hourCount > limits.perHour {
      HourWaitDominates(limits, now, minuteCount, hourCount);
      ExceededStaysExceeded(limits, events, i, j, Hour);
    } else {
      ExceededStaysExceeded(limits, events, i, j, Minute);
    }
  }

  /** Nobody but `i` and `j` themselves checks for that user from `i` to `j`. */
  ghost predicate NoneBetween(events: seq<Event>, i: nat, j: nat)
    requires i < j < |events| && events[i].Checked?
  {
    forall k | i < k < j && events[k].Checked? :: events[k].user != events[i].user
  }

  lemma NewBucketStartsAtOne(events: seq<Event>, i: nat, j: nat, w: Window)
    requires History(events) && i < j < |events| && events[i].Checked? && events[j].Checked?
    requires events[j].user == events[i].user && NoneBetween(events, i, j)
    requires Bucket(w, events[j].at) > Bucket(w, events[i].at)
    ensures CountIn(events[..j], w, events[j].user, Bucket(w, events[j].at)) == 0
  {
    forall k | 0 <= k < j
      ensures !Hits(events[k], w, events[j].user, Bucket(w, events[j].at))
    {
      if k <= i {
        BucketMonotone(w, events[k].at, events[i].at);
      }
    }
    hide Bucket;
    CountIsZero(events, j, w, events[j].user, Bucket(w, events[j].at));
  }

  /** The next check, made exactly Retry-After seconds after a refusal, is admitted if and only if the
      hour has rolled over or the refused check itself was still below the hour limit. */
  lemma RetryAfterExact(limits: Limits, events: seq<Event>, i: nat, j: nat)
    requires ValidLimits(limits)
    requires History(events) && i < j < |events| && events[i].Checked? && events[j].Checked?
    requires events[j].user == events[i].user && NoneBetween(events, i, j)
    requires !Verdict(limits, events, i).allowed
    requires Clock(events[j].at) == Clock(events[i].at) + Verdict(limits, events, i).retryAfterSeconds
    ensures Verdict(limits, events, j).allowed <==>
            Bucket(Hour, events[j].at) > Bucket(Hour, events[i].at) ||
            Verdict(limits, events, i).hourCount < limits.perHour
  {
    var now, v := Clock(events[i].at), Verdict(limits, events, i);
    if v.hourCount > limits.perHour {
      HourWaitDominates(limits, now, v.minuteCount, v.hourCount);
      RemainingIsExact(Hour, now, Clock(events[j].at));
    }
    MinuteRollsOver(limits, events, i, j);
    NewBucketStartsAtOne(events, i, j, Minute);
    BucketMonotone(Hour, events[i].at, events[j].at);
    if Bucket(Hour, events[j].at) > Bucket(Hour, events[i].at) {
      NewBucketStartsAtOne(events, i, j, Hour);
    } else {
      assert forall k | i < k < j :: !Hits(events[k], Hour, events[i].user, Bucket(Hour, events[i].at));
      CountStays(events, i, j, Hour, events[i].user, Bucket(Hour, events[i].at));
    }
  }

  /** The guarantee can fail: with limits 1 and 2, a check refused at second 1 is told to wait 59 seconds,
      and the next one, made at second 60 exactly, is refused for the hour. */
  lemma RetryAfterCanDisappoint()
    ensures var limits, events := Limits(1, 2), [Checked("u", 0), Checked("u", 1000), Checked("u", 60_000)];
            && ValidLimits(limits) && History(events) && NoneBetween(events, 1, 2)
            && !Verdict(limits, events, 1).allowed
            && Clock(events[2].at) == Clock(events[1].at) + Verdict(limits, events, 1).retryAfterSeconds
            && !Verdict(limits, events, 2).allowed
  {
    var limits, events := Limits(1, 2), [Checked("u", 0), Checked("u", 1000), Checked("u", 60_000)];
    assert events[..1] == [events[0]] && events[..2] == [events[0], events[1]];
    assert events[..2][..1] == events[..1] && events[..1][..0] == [];
    forall w
      ensures Bucket(w, 0) == Bucket(w, 1000) == 0
      ensures Bucket(Minute, 60_000) == 1 && Bucket(Hour, 60_000) == 0
    {
      assert w == Minute || w == Hour;
    }
    assert CountIn(events[..0], Minute, "u", 0) == 0 && CountIn(events[..0], Hour, "u", 0) == 0;
    assert CountIn(events[..1], Minute, "u", 0) == 1 && CountIn(events[..1], Hour, "u", 0) == 1;
    assert CountIn(events[..2], Hour, "u", 0) == 2;
  }

  lemma MinuteRollsOver(limits: Limits, events: seq<Event>, i: nat, j: nat)
    requires i < j < |events| && events[i].Checked? && events[j].Checked?
    requires !Verdict(limits, events, i).allowed
    requires Clock(events[j].at) == Clock(events[i].at) + Verdict(limits, events, i).retryAfterSeconds
    ensures Bucket(Minute, events[j].at) > Bucket(Minute, events[i].at)
  {
    var now, v := Clock(events[i].at), Verdict(limits, events, i);
    assert v.retryAfterSeconds >= Remaining(Minute, now) by {
      if v.hourCount > limits.perHour {
        HourWaitDominates(limits, now, v.minuteCount, v.hourCount);
        HourOutlastsMinute(now);
      }
    }
    RemainingIsExact(Minute, now, now + Remaining(Minute, now));
  }

  // ---------------------------------------------------------------------------
  // What a check reports, on the log alone
  // ---------------------------------------------------------------------------

  lemma RejectionLaw(limits: Limits)
    ensures Rejection(limits) == None <==> limits.perMinute > 0 && limits.perHour > 0
    ensures Rejection(limits) == Some(BadMinuteLimit) <==> limits.perMinute <= 0
    ensures Rejection(limits) == Some(BadHourLimit) <==> limits.perMinute > 0 >= limits.perHour
  {
  }

  /** Width of a window in milliseconds. */
  function Width(w: Window): (width: nat)
    ensures width > 0
  {
    if w.Minute? then 60_000 else 3_600_000
  }

  lemma BucketIsQuotient(w: Window, at: nat)
    ensures Bucket(w, at) == at / Width(w)
  {
    if w.Minute? {
      assert at / 1000 / 60 == at / 60_000;
    } else {
      assert at / 1000 / 3600 == at / 3_600_000;
    }
  }

  /** The checks of `user` in the window numbered `bucket`. */
  ghost function ChecksIn(events: seq<Event>, w: Window, user: string, bucket: nat): set<nat> {
    set k: nat | k < |events| && IsIn(events[k], w, user, bucket)
  }

  predicate IsIn(e: Event, w: Window, user: string, bucket: nat) {
    e.Checked? && e.user == user && e.at / Width(w) == bucket
  }

  lemma LastCheck(events: seq<Event>, e: Event, w: Window, user: string, bucket: nat)
    ensures |ChecksIn(events + [e], w, user, bucket)| ==
            |ChecksIn(events, w, user, bucket)| +
            if IsIn(e, w, user, bucket) then 1 else 0
  {
    hide IsIn;
    var n, before, after := |events|, ChecksIn(events, w, user, bucket), ChecksIn(events + [e], w, user, bucket);
    assert forall k | 0 <= k < n :: (events + [e])[k] == events[k];
    if IsIn(e, w, user, bucket) {
      assert after == before + {n};
    } else {
      assert after == before;
    }
  }

  lemma {:induction false} CountIsCardinality(events: seq<Event>, w: Window, user: string, bucket: nat)
    ensures CountIn(events, w, user, bucket) == |ChecksIn(events, w, user, bucket)|
  {
    hide Bucket, Width, ChecksIn;
    if events == [] {
      NoChecks(w, user, bucket);
    } else {
      var before, e := events[..|events| - 1], events[|events| - 1];
      assert events == before + [e];
      CountIsCardinality(before, w, user, bucket);
      LastCheck(before, e, w, user, bucket);
      if e.Checked? {
        BucketIsQuotient(w, e.at);
      }
    }
  }

  lemma NoChecks(w: Window, user: string, bucket: nat)
    ensures ChecksIn([], w, user, bucket) == {}
  {
  }

  /** A check reports how many checks of its user, itself included, its minute and its hour have seen so far, and
      both limits; it is admitted if and only if neither count exceeds its limit; and it tells the user to wait for
      the next hour if the hour is exceeded, else for the next minute if the minute is, else not at all. */
  lemma CheckReports(limits: Limits, events: seq<Event>, i: nat)
    requires ValidLimits(limits) && History(events) && i < |events| && events[i].Checked?
    ensures var e := events[i];
            var r := CheckAt(Play(limits, events[..i]), limits, e.user, e.at).1;
            && r.Ok?
            && r.value.minuteCount == |ChecksIn(events[..i], Minute, e.user, e.at / 60_000)| + 1
            && r.value.hourCount == |ChecksIn(events[..i], Hour, e.user, e.at / 3_600_000)| + 1
            && r.value.minuteLimit == limits.perMinute && r.value.hourLimit == limits.perHour
            && (r.value.allowed <==> r.value.minuteCount <= limits.perMinute && r.value.hourCount <= limits.perHour)
            && r.value.retryAfterSeconds ==
               if r.value.hourCount > limits.perHour then 3600 - e.at / 1000 % 3600
               else if r.value.minuteCount > limits.perMinute then 60 - e.at / 1000 % 60
               else 0
  {
    var e := events[i];
    CheckCountsTheLog(limits, events, i);
    CountIsCardinality(events[..i], Minute, e.user, Bucket(Minute, e.at));
    CountIsCardinality(events[..i], Hour, e.user, Bucket(Hour, e.at));
    BucketIsQuotient(Minute, e.at);
    BucketIsQuotient(Hour, e.at);
    HourOutlastsMinute(Clock(e.at));
    hide CheckAt, Play, ChecksIn, History, Bucket;
  }
}
