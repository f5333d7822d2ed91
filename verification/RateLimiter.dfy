/** The rate limiter: the check itself, and the full log its expiring counters stand for. */
module RateLimiter {
  import opened Prelude
  import opened Keys
  import opened Redis

  const MINUTE_WINDOW_SECONDS: nat := 60
  const HOUR_WINDOW_SECONDS: nat := 3600

  function Seconds(w: Window): (s: nat)
    ensures s > 0
  {
    if w.Minute? then MINUTE_WINDOW_SECONDS else HOUR_WINDOW_SECONDS
  }

  /** `int(time())` at `at` milliseconds. */
  function Clock(at: nat): nat {
    at / 1000
  }

  function Bucket(w: Window, at: nat): nat {
    Clock(at) / Seconds(w)
  }

  datatype Limits = Limits(perMinute: int, perHour: int) {
    function Of(w: Window): int {
      if w.Minute? then perMinute else perHour
    }
  }

  datatype LimitsError = BadMinuteLimit | BadHourLimit

  function Rejection(limits: Limits): Option<LimitsError> {
    if limits.perMinute <= 0 then Some(BadMinuteLimit)
    else if limits.perHour <= 0 then Some(BadHourLimit)
    else None
  }

  predicate ValidLimits(limits: Limits) {
    limits.perMinute > 0 && limits.perHour > 0
  }

  datatype RateLimitResult = RateLimitResult(
    allowed: bool, minuteCount: nat, hourCount: nat, minuteLimit: int, hourLimit: int, retryAfterSeconds: nat)

  function Remaining(w: Window, now: nat): nat {
    Seconds(w) - now % Seconds(w)
  }

  function Judge(limits: Limits, now: nat, minuteCount: nat, hourCount: nat): RateLimitResult {
    var minuteExceeded := minuteCount > limits.perMinute;
    var hourExceeded := hourCount > limits.perHour;
    var minuteRetry := if minuteExceeded then Remaining(Minute, now) else 0;
    var retry := if hourExceeded && Remaining(Hour, now) > minuteRetry then Remaining(Hour, now) else minuteRetry;
    RateLimitResult(!minuteExceeded && !hourExceeded, minuteCount, hourCount, limits.perMinute, limits.perHour, retry)
  }

  /** One INCR of the window's counter for a request whose clock read `at`, landing at `now`. */
  function Hit(ks: Keyspace, w: Window, user: string, at: nat, now: nat): (Keyspace, Result<nat, StoreError>) {
    Incremented(ks, RateLimitKey(w, user, Bucket(w, at)), Seconds(w), now)
  }

  function CheckAt(
    ks: Keyspace, limits: Limits, user: string, at: nat): (Keyspace, Result<RateLimitResult, StoreError>) {
    var (ks1, minute) := Hit(ks, Minute, user, at, at);
    if minute.Err? then (ks1, Err(minute.error))
    else
      var (ks2, hour) := Hit(ks1, Hour, user, at, at);
      if hour.Err? then (ks2, Err(hour.error)) else (ks2, Ok(Judge(limits, Clock(at), minute.value, hour.value)))
  }

  class RateLimiter {
    const store: RedisCacheAdapter
    const limits: Limits

    constructor (store: RedisCacheAdapter, limits: Limits)
      requires Rejection(limits) == None
      ensures this.store == store && this.limits == limits
    {
      this.store := store;
      this.limits := limits;
    }

    static method Create(store: RedisCacheAdapter, limits: Limits) returns (r: Result<RateLimiter, LimitsError>)
      ensures r.Ok? <==> ValidLimits(limits)
      ensures r.Err? ==> Rejection(limits) == Some(r.error)
      ensures r.Ok? ==> fresh(r.value) && r.value.store == store && r.value.limits == limits
    {
      var rejected := Rejection(limits);
      if rejected.Some? {
        return Err(rejected.value);
      }
      var limiter := new RateLimiter(store, limits);
      return Ok(limiter);
    }

    /** A check nobody interrupts: both increments land at the time the clock was read. */
    method Check(user: string) returns (r: Result<RateLimitResult, StoreError>)
      modifies store.client`keys
      ensures var (after, result) := CheckAt(old(store.client.keys), limits, user, store.client.now);
              store.client.keys == after && r == result
    {
      var now := Clock(store.client.now);
      var minuteKey := RateLimitMinuteKey(user, now / MINUTE_WINDOW_SECONDS);
      var hourKey := RateLimitHourKey(user, now / HOUR_WINDOW_SECONDS);
      var minute := store.Increment(minuteKey, MINUTE_WINDOW_SECONDS);
      if minute.Err? {
        return Err(minute.error);
      }
      var hour := store.Increment(hourKey, HOUR_WINDOW_SECONDS);
      if hour.Err? {
        return Err(hour.error);
      }
      var minuteCount, hourCount := minute.value, hour.value;
      var minuteExceeded := minuteCount > limits.perMinute;
      var hourExceeded := hourCount > limits.perHour;
      var allowed := !minuteExceeded && !hourExceeded;
      var retryAfter := 0;
      if minuteExceeded {
        retryAfter := MINUTE_WINDOW_SECONDS - now % MINUTE_WINDOW_SECONDS;
      }
      if hourExceeded {
        var hourRetry := HOUR_WINDOW_SECONDS - now % HOUR_WINDOW_SECONDS;
        retryAfter := if hourRetry > retryAfter then hourRetry else retryAfter;
      }
      return Ok(RateLimitResult(allowed, minuteCount, hourCount, limits.perMinute, limits.perHour, retryAfter));
    }
  }

  // ---------------------------------------------------------------------------
  // The full log
  // ---------------------------------------------------------------------------

  /** What happens to the store: a check, or a write or removal outside the rate-limit keys. */
  datatype Event = Checked(user: string, at: nat) | Foreign(key: string, entry: Option<Entry>, at: nat)

  ghost predicate Admissible(e: Event) {
    e.Foreign? ==> forall w, u, b :: e.key != RateLimitKey(w, u, b)
  }

  ghost predicate History(events: seq<Event>) {
    && (forall i | 0 <= i < |events| :: Admissible(events[i]))
    && (forall i, j | 0 <= i < j < |events| :: events[i].at <= events[j].at)
  }

  function Apply(ks: Keyspace, limits: Limits, e: Event): Keyspace {
    match e
    case Checked(user, at) => CheckAt(ks, limits, user, at).0
    case Foreign(key, Some(entry), _) => ks[key := entry]
    case Foreign(key, None, _) => ks - {key}
  }

  function Play(limits: Limits, events: seq<Event>): Keyspace {
    if events == [] then map[] else Apply(Play(limits, events[..|events| - 1]), limits, events[|events| - 1])
  }

  predicate Hits(e: Event, w: Window, user: string, bucket: nat) {
    e.Checked? && e.user == user && Bucket(w, e.at) == bucket
  }

  /** Checks of `user`, admitted or refused, whose clock read fell in the bucket. */
  function CountIn(events: seq<Event>, w: Window, user: string, bucket: nat): nat {
    if events == [] then 0
    else CountIn(events[..|events| - 1], w, user, bucket) +
         (if Hits(events[|events| - 1], w, user, bucket) then 1 else 0)
  }

  /** The live counter of a current or future bucket is the log's count, and outlives the bucket. */
  ghost predicate Agrees(w: Window, ks: Keyspace, events: seq<Event>, now: nat) {
    forall user, b | b >= Bucket(w, now) :: AgreesOn(w, ks, events, user, b)
  }

  ghost predicate AgreesOn(w: Window, ks: Keyspace, events: seq<Event>, user: string, b: nat) {
    var key, c := RateLimitKey(w, user, b), CountIn(events, w, user, b);
    if c == 0 then key !in ks
    else
      && key in ks && ks[key].value == Counter(c)
      && ks[key].expiry.Some? && ks[key].expiry.value >= 1000 * Seconds(w) * (b + 1)
  }

  lemma BucketSpan(w: Window, at: nat)
    ensures 1000 * Seconds(w) * Bucket(w, at) <= at < 1000 * Seconds(w) * (Bucket(w, at) + 1)
  {
    var s, c := Seconds(w), Clock(at);
    assert c == s * (c / s) + c % s;
    assert at == 1000 * c + at % 1000;
    assert s * (c / s + 1) == s * (c / s) + s;
  }

  lemma BucketMonotone(w: Window, t: nat, t': nat)
    requires t <= t'
    ensures Bucket(w, t) <= Bucket(w, t')
  {
    if w.Minute? {
      assert Seconds(w) == 60;
    } else {
      assert Seconds(w) == 3600;
    }
  }

  lemma HitAgrees(w: Window, ks: Keyspace, events: seq<Event>, user: string, at: nat)
    requires Agrees(w, ks, events, at)
    ensures Hit(ks, w, user, at, at).1 == Ok(CountIn(events, w, user, Bucket(w, at)) + 1)
    ensures Agrees(w, Hit(ks, w, user, at, at).0, events + [Checked(user, at)], at)
  {
    hide Bucket, RateLimitKey;
    var b, more := Bucket(w, at), events + [Checked(user, at)];
    var ks' := Hit(ks, w, user, at, at).0;
    assert more[..|events|] == events;
    assert AgreesOn(w, ks, events, user, b);
    BucketSpan(w, at);
    assert 1000 * Seconds(w) * (b + 1) == 1000 * Seconds(w) * b + 1000 * Seconds(w);
    forall u, b' | b' >= b
      ensures AgreesOn(w, ks', more, u, b')
    {
      assert AgreesOn(w, ks, events, u, b');
      if RateLimitKey(w, u, b') == RateLimitKey(w, user, b) {
        RateLimitKeyInjective(w, u, b', w, user, b);
      }
    }
  }

  lemma OtherKeysAgree(w: Window, ks: Keyspace, ks': Keyspace, events: seq<Event>, now: nat)
    requires Agrees(w, ks, events, now)
    requires forall u, b :: var k := RateLimitKey(w, u, b); (k in ks <==> k in ks') && (k in ks ==> ks'[k] == ks[k])
    ensures Agrees(w, ks', events, now)
  {
    hide RateLimitKey;
    forall u, b | b >= Bucket(w, now)
      ensures AgreesOn(w, ks', events, u, b)
    {
      assert AgreesOn(w, ks, events, u, b);
    }
  }

  lemma HitLeavesOthers(w: Window, v: Window, ks: Keyspace, events: seq<Event>, user: string, at: nat)
    requires w != v && Agrees(v, ks, events, at)
    ensures Agrees(v, Hit(ks, w, user, at, at).0, events, at)
  {
    hide RateLimitKey;
    forall u, b
      ensures RateLimitKey(v, u, b) != RateLimitKey(w, user, Bucket(w, at))
    {
      if RateLimitKey(v, u, b) == RateLimitKey(w, user, Bucket(w, at)) {
        RateLimitKeyInjective(v, u, b, w, user, Bucket(w, at));
      }
    }
    OtherKeysAgree(v, ks, Hit(ks, w, user, at, at).0, events, at);
  }

  lemma LaterAgrees(w: Window, ks: Keyspace, events: seq<Event>, now: nat, later: nat)
    requires Agrees(w, ks, events, now) && now <= later
    ensures Agrees(w, ks, events, later)
  {
    BucketMonotone(w, now, later);
  }

  lemma CheckAgrees(limits: Limits, ks: Keyspace, events: seq<Event>, user: string, at: nat)
    requires Agrees(Minute, ks, events, at) && Agrees(Hour, ks, events, at)
    ensures var (ks', r) := CheckAt(ks, limits, user, at);
            && r == Ok(Judge(limits, Clock(at), CountIn(events, Minute, user, Bucket(Minute, at)) + 1,
                             CountIn(events, Hour, user, Bucket(Hour, at)) + 1))
            && Agrees(Minute, ks', events + [Checked(user, at)], at)
            && Agrees(Hour, ks', events + [Checked(user, at)], at)
  {
    hide Hit, Judge, Agrees, Bucket;
    var ks1 := Hit(ks, Minute, user, at, at).0;
    HitAgrees(Minute, ks, events, user, at);
    HitLeavesOthers(Minute, Hour, ks, events, user, at);
    HitAgrees(Hour, ks1, events, user, at);
    HitLeavesOthers(Hour, Minute, ks1, events + [Checked(user, at)], user, at);
  }

  lemma {:induction false} CountersAreTheLog(limits: Limits, events: seq<Event>, now: nat)
    requires History(events) && (events != [] ==> events[|events| - 1].at <= now)
    ensures Agrees(Minute, Play(limits, events), events, now) && Agrees(Hour, Play(limits, events), events, now)
  {
    hide CheckAt, Bucket, RateLimitKey;
    if events != [] {
      var before, e := events[..|events| - 1], events[|events| - 1];
      var ks, ks' := Play(limits, before), Play(limits, events);
      assert before + [e] == events;
      CountersAreTheLog(limits, before, e.at);
      match e {
        case Checked(user, at) => CheckAgrees(limits, ks, before, user, at);
        case Foreign(_, _, at) =>
          assert Admissible(e);
          forall w
            ensures Agrees(w, ks', before, at) && Agrees(w, ks', events, at)
          {
            assert w == Minute || w == Hour;
            OtherKeysAgree(w, ks, ks', before, at);
            ForeignIsNotCounted(w, ks', before, e);
          }
      }
      LaterAgrees(Minute, ks', events, e.at, now);
      LaterAgrees(Hour, ks', events, e.at, now);
    }
  }

  lemma ForeignIsNotCounted(w: Window, ks: Keyspace, events: seq<Event>, e: Event)
    requires e.Foreign? && Agrees(w, ks, events, e.at)
    ensures Agrees(w, ks, events + [e], e.at)
  {
    hide Bucket, RateLimitKey;
    assert (events + [e])[..|events|] == events;
    forall u, b | b >= Bucket(w, e.at)
      ensures AgreesOn(w, ks, events + [e], u, b)
    {
      assert AgreesOn(w, ks, events, u, b);
    }
  }

  /** The verdict the full log prescribes for its `i`-th event. */
  function Verdict(limits: Limits, events: seq<Event>, i: nat): RateLimitResult
    requires i < |events| && events[i].Checked?
  {
    var e := events[i];
    Judge(limits, Clock(e.at), CountIn(events[..i], Minute, e.user, Bucket(Minute, e.at)) + 1,
          CountIn(events[..i], Hour, e.user, Bucket(Hour, e.at)) + 1)
  }

  /** Expiring counters lose nothing: whatever expired before, and whatever other families wrote, each
      check returns 1 + the number of earlier checks of that user in the same bucket. */
  lemma CheckCountsTheLog(limits: Limits, events: seq<Event>, i: nat)
    requires History(events) && i < |events| && events[i].Checked?
    ensures CheckAt(Play(limits, events[..i]), limits, events[i].user, events[i].at).1 == Ok(Verdict(limits, events, i))
  {
    hide CheckAt, Judge, Bucket;
    CountersAreTheLog(limits, events[..i], events[i].at);
    CheckAgrees(limits, Play(limits, events[..i]), events[..i], events[i].user, events[i].at);
  }
}
