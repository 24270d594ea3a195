/** What the limiter promises exactly if requests are answered at one instant: when the
    burst-plus-refill bound holds without a rounding term, and what a denied caller can rely
    on. Overlap has what is left of both when the calls of requests overlap. */
module Admission {
  import opened TokenBucket

  // ---- The exact bound ---------------------------------------------------------------

  /** In every window after every history, at most burst + rate * T / 60 requests. */
  ghost predicate KeepsExactBound(c: Config, rate: int) {
    forall history, events, key, from, to | Window(history, events, key, rate, from, to) ::
      Admitted(c, Run(c, map[], history), events, key) * TOKEN <= c.burst * TOKEN + Refill(rate, to - from)
  }

  /** The rate divides the minute's nanoseconds, so that a delay is never rounded, and an
      empty bucket is full again the first time the janitor may delete it. */
  predicate RefillsExactly(c: Config, rate: int)
    requires rate > 0
  {
    TOKEN % rate == 0 && c.burst * TOKEN <= Refill(rate, c.idleTTL + 1)
  }

  /** The key's bucket is never overdrawn when the rate divides a token. */
  ghost predicate Aligned(m: Buckets, key: string, rate: int)
    requires rate > 0
  {
    key in m && m[key].rpm == rate ==> m[key].tokens >= 0 && m[key].tokens % rate == 0
  }

  lemma MultiplesAdd(x: int, k: int, rate: int)
    requires rate > 0 && x % rate == 0
    ensures (x + rate * k) % rate == 0
  {
    var q := x / rate;
    assert x + rate * k == rate * (q + k);
    MultipleHasNoRemainder(q + k, rate);
  }

  lemma MultipleHasNoRemainder(k: int, rate: int)
    requires rate > 0
    ensures (rate * k) % rate == 0
  {
    var r := (rate * k) % rate;
    var q := (rate * k) / rate;
    assert rate * k == rate * q + r;
    NoSmallMultiple(rate, k - q);
  }

  lemma NoSmallMultiple(rate: int, d: int)
    requires rate > 0
    ensures d == 0 || rate * d >= rate || rate * d <= -rate
  {
  }

  lemma LevelIsAligned(c: Config, b: Bucket, now: Time)
    requires b.rpm > 0 && TOKEN % b.rpm == 0 && b.tokens >= 0 && b.tokens % b.rpm == 0 && c.burst > 0
    ensures Level(c, b, now) >= 0 && Level(c, b, now) % b.rpm == 0
  {
    var elapsed := if now > b.last then now - b.last else 0;
    MultiplesAdd(b.tokens, elapsed, b.rpm);
    BurstIsAligned(c, b.rpm);
    RefillGrows(b.rpm, 0, elapsed);
  }

  lemma BurstIsAligned(c: Config, rate: int)
    requires rate > 0 && TOKEN % rate == 0
    ensures (c.burst * TOKEN) % rate == 0
  {
    var q := TOKEN / rate;
    assert TOKEN == rate * q;
    assert c.burst * TOKEN == rate * (q * c.burst);
    MultipleHasNoRemainder(q * c.burst, rate);
  }

  /** Every event keeps the key's bucket aligned, whatever rate it asks for, and the
      janitor then only deletes the bucket when it is full. */
  lemma AlignedNext(c: Config, m: Buckets, e: Event, key: string, rate: int)
    requires c.burst > 0 && rate > 0 && TOKEN % rate == 0 && AllOk(c, m, e.now) && Aligned(m, key, rate)
    ensures Aligned(Next(c, m, e), key, rate)
    ensures RefillsExactly(c, rate) ==> Harmless(c, m, e, key, rate)
  {
    hide Refill, AfterReserve, Answer;
    BurstIsAligned(c, rate);
    if key in m && m[key].rpm == rate {
      LevelIsAligned(c, m[key], e.now);
      if e.Sweep? && m[key].lastSeen < e.now - c.idleTTL {
        RefillGrows(rate, c.idleTTL + 1, e.now - m[key].last);
      }
    }
    if e.Request? && e.key == key {
      ReserveKeepsOk(c, BucketFor(c, m, key, e.rpm, e.now), e.now);
      if Rate(e.rpm) == rate {
        AlignedReserve(c, m, e, key, rate);
      }
    }
  }

  lemma AlignedReserve(c: Config, m: Buckets, e: Event, key: string, rate: int)
    requires c.burst > 0 && rate > 0 && TOKEN % rate == 0 && AllOk(c, m, e.now) && Aligned(m, key, rate)
    requires e.Request? && e.key == key && Rate(e.rpm) == rate
    ensures Aligned(Next(c, m, e), key, rate)
  {
    var b := BucketFor(c, m, key, e.rpm, e.now);
    BurstIsAligned(c, rate);
    LevelIsAligned(c, b, e.now);
    ReserveKeepsOk(c, b, e.now);
    hide Refill, AfterReserve;
    AlignedTake(Level(c, b, e.now), rate);
    AdmitsExactly(c, m, key, e.rpm, e.now);
  }

  /** Among multiples of the rate, less than a nanosecond's refill short is not short. */
  lemma AlignedTake(level: int, rate: int)
    requires rate > 0 && level % rate == 0 && TOKEN % rate == 0
    ensures (level - TOKEN) % rate == 0
    ensures level - TOKEN > -rate ==> level >= TOKEN
  {
    var d := level / rate - TOKEN / rate;
    assert level - TOKEN == rate * d;
    MultipleHasNoRemainder(d, rate);
    NoSmallMultiple(rate, d);
  }

  lemma {:induction false} AlignedRun(c: Config, m: Buckets, events: seq<Event>, key: string, rate: int,
                                      from: Time, to: Time)
    requires c.burst > 0 && rate > 0 && TOKEN % rate == 0 && AllOk(c, m, from) && Aligned(m, key, rate)
    requires Within(events, from, to)
    ensures Aligned(Run(c, m, events), key, rate)
    ensures RefillsExactly(c, rate) ==> HarmlessSweeps(c, m, events, key, rate)
    decreases |events|
  {
    if events != [] {
      var front, e := events[..|events| - 1], events[|events| - 1];
      hide AllOk, Aligned, Next, Harmless, RefillsExactly;
      AlignedRun(c, m, front, key, rate, from, e.now);
      RunKeepsOk(c, m, front, from, e.now);
      AlignedNext(c, Run(c, m, front), e, key, rate);
    }
  }

  lemma ExactBoundHolds(c: Config, history: seq<Event>, events: seq<Event>, key: string, rate: int,
                        from: Time, to: Time)
    requires c.burst > 0 && rate > 0 && RefillsExactly(c, rate) && Window(history, events, key, rate, from, to)
    ensures Admitted(c, Run(c, map[], history), events, key) * TOKEN <= c.burst * TOKEN + Refill(rate, to - from)
  {
    hide Refill;
    var m := Run(c, map[], history);
    HistoryIsOk(c, history, from);
    AlignedRun(c, map[], history, key, rate, if history == [] then from else history[0].now, from);
    AlignedRun(c, m, events, key, rate, from, to);
    Budget(c, m, events, key, rate, from, to);
    RunKeepsOk(c, m, events, from, to);
    var after := Run(c, m, events);
    if key in after && after[key].rpm == rate {
      LevelIsAligned(c, after[key], to);
    }
  }

  // ---- Runs that exceed the bound otherwise --------------------------------------------

  /** n requests for the key at one instant. */
  function Requests(key: string, rate: int, n: nat, now: Time): (events: seq<Event>)
    ensures |events| == n && forall i | 0 <= i < n :: events[i] == Request(key, rate, now)
  {
    if n == 0 then [] else Requests(key, rate, n - 1, now) + [Request(key, rate, now)]
  }

  lemma {:induction false} BurstIsAdmitted(c: Config, m: Buckets, key: string, rate: int, n: nat, now: Time)
    requires c.burst > 0 && rate > 0 && AllOk(c, m, now) && n * TOKEN <= Available(c, m, key, rate, now)
    ensures
      var events := Requests(key, rate, n, now);
      && Admitted(c, m, events, key) == n && AllOk(c, Run(c, m, events), now)
      && Available(c, Run(c, m, events), key, rate, now) == Available(c, m, key, rate, now) - n * TOKEN
    decreases n
  {
    if n > 0 {
      var events, front, e := Requests(key, rate, n, now), Requests(key, rate, n - 1, now), Request(key, rate, now);
      assert events[..n - 1] == front && events[n - 1] == e;
      BurstIsAdmitted(c, m, key, rate, n - 1, now);
      hide Next, AllOk, Available, Admits;
      var before := Run(c, m, front);
      AdmitsExactly(c, before, key, rate, now);
      EventTakes(c, before, e, key, rate);
      NextKeepsOk(c, before, e, now);
    }
  }

  /** A key that is new, or asks for another rate than before, starts with a full bucket: of
      any number of requests at one instant exactly the burst is admitted. */
  lemma NewRateStartsFull(c: Config, m: Buckets, key: string, rate: int, now: Time)
    requires c.burst > 0 && 0 < rate <= TOKEN && AllOk(c, m, now) && (key in m ==> m[key].rpm != rate)
    ensures
      var events := Requests(key, rate, c.burst, now);
      Admitted(c, m, events, key) == c.burst && !Admits(c, Run(c, m, events), key, rate, now)
  {
    BurstIsAdmitted(c, m, key, rate, c.burst, now);
    hide Admits, Run, Admitted, AllOk;
    AdmitsExactly(c, Run(c, m, Requests(key, rate, c.burst, now)), key, rate, now);
  }

  /** A rate that does not divide a token: one request too many as soon as the rest of a
      token is short by less than a nanosecond's refill. */
  lemma RoundingAdmitsOneMore(c: Config, key: string, rate: int)
    requires c.burst > 0 && rate > 0 && TOKEN % rate != 0
    ensures
      var wait := TOKEN / rate;
      var events := Requests(key, rate, c.burst, 0) + [Request(key, rate, wait)];
      && Window([], events, key, rate, 0, wait)
      && Admitted(c, map[], events, key) * TOKEN > c.burst * TOKEN + Refill(rate, wait)
  {
    var wait := TOKEN / rate;
    var front, e := Requests(key, rate, c.burst, 0), Request(key, rate, wait);
    WaitFallsShort(rate);
    BurstAndOneInOrder(key, rate, c.burst, wait);
    AfterBurst(c, key, rate);
    hide Refill, Run, Next, Available, Admits, AllOk, Requests, Window;
    AdmitsExactly(c, Run(c, map[], front), key, rate, wait);
    assert (front + [e])[..|front + [e]| - 1] == front;
    AvailableGrows(c, Run(c, map[], front), key, rate, 0, wait);
  }

  lemma BurstAndOneInOrder(key: string, rate: int, n: nat, wait: Time)
    requires rate > 0 && wait >= 0
    ensures Window([], Requests(key, rate, n, 0) + [Request(key, rate, wait)], key, rate, 0, wait)
  {
  }

  lemma TwoBurstsAreInOrder(key: string, rate: int, n: nat, later: Time)
    requires rate > 0 && later >= 0
    ensures Window([], Requests(key, rate, n, 0) + [Sweep(later)] + Requests(key, rate, n, later), key, rate, 0, later)
  {
  }

  lemma WaitFallsShort(rate: int)
    requires rate > 0 && TOKEN % rate != 0
    ensures TOKEN / rate >= 0 && TOKEN - rate < Refill(rate, TOKEN / rate) < TOKEN
  {
  }

  /** A burst at the start of time empties the bucket. */
  lemma AfterBurst(c: Config, key: string, rate: int)
    requires c.burst > 0 && rate > 0
    ensures
      var front := Requests(key, rate, c.burst, 0);
      && Admitted(c, map[], front, key) == c.burst && AllOk(c, Run(c, map[], front), 0)
      && Available(c, Run(c, map[], front), key, rate, 0) == 0
  {
    BurstIsAdmitted(c, map[], key, rate, c.burst, 0);
  }

  lemma {:induction false} Splits(c: Config, m: Buckets, a: seq<Event>, b: seq<Event>, key: string)
    ensures Run(c, m, a + b) == Run(c, Run(c, m, a), b)
    ensures Admitted(c, m, a + b, key) == Admitted(c, m, a, key) + Admitted(c, Run(c, m, a), b, key)
    decreases |b|
  {
    if b == [] {
      assert a + b == a;
    } else {
      var front, e := b[..|b| - 1], b[|b| - 1];
      assert (a + b)[..|a + b| - 1] == a + front && (a + b)[|a + b| - 1] == e;
      Splits(c, m, a, front, key);
    }
  }

  /** A bucket that is not full when the janitor deletes it: the burst is available again
      too early. */
  lemma SweepAdmitsTwoBursts(c: Config, key: string, rate: int)
    requires c.burst > 0 && c.idleTTL > 0 && rate > 0 && c.burst * TOKEN > Refill(rate, c.idleTTL + 1)
    ensures
      var later := c.idleTTL + 1;
      var events := Requests(key, rate, c.burst, 0) + [Sweep(later)] + Requests(key, rate, c.burst, later);
      && Window([], events, key, rate, 0, later)
      && Admitted(c, map[], events, key) * TOKEN > c.burst * TOKEN + Refill(rate, later)
  {
    var later := c.idleTTL + 1;
    var first, second := Requests(key, rate, c.burst, 0), Requests(key, rate, c.burst, later);
    TwoBurstsAreInOrder(key, rate, c.burst, later);
    AfterBurst(c, key, rate);
    var used := Run(c, map[], first);
    SweepForgets(c, used, first, key, later);
    var swept := Run(c, map[], first + [Sweep(later)]);
    hide Refill, Run, Next, AllOk, Admitted, Requests, Window;
    BurstIsAdmitted(c, swept, key, rate, c.burst, later);
    Splits(c, map[], first + [Sweep(later)], second, key);
  }

  lemma SweepForgets(c: Config, used: Buckets, first: seq<Event>, key: string, later: Time)
    requires c.burst > 0 && later > c.idleTTL > 0 && used == Run(c, map[], first) && AllOk(c, used, 0)
    ensures
      var swept := Run(c, map[], first + [Sweep(later)]);
      key !in swept && AllOk(c, swept, later)
    ensures Admitted(c, map[], first + [Sweep(later)], key) == Admitted(c, map[], first, key)
  {
    var events := first + [Sweep(later)];
    assert events[..|events| - 1] == first && events[|events| - 1] == Sweep(later);
    NextKeepsOk(c, used, Sweep(later), 0);
  }

  /** The bound without a rounding term holds of every run exactly when the rate divides
      the nanoseconds of a minute and the janitor keeps a bucket until it is full. */
  lemma ExactBoundExactlyWhen(c: Config, rate: int)
    requires c.burst > 0 && c.idleTTL > 0 && rate > 0
    ensures KeepsExactBound(c, rate) <==> RefillsExactly(c, rate)
  {
    hide Refill, Admitted, Run, Window;
    if RefillsExactly(c, rate) {
      forall history, events, key, from, to | Window(history, events, key, rate, from, to)
        ensures Admitted(c, Run(c, map[], history), events, key) * TOKEN
             <= c.burst * TOKEN + Refill(rate, to - from)
      {
        ExactBoundHolds(c, history, events, key, rate, from, to);
      }
    } else {
      EmptyRun(c);
      if TOKEN % rate != 0 {
        RoundingAdmitsOneMore(c, "", rate);
      } else {
        SweepAdmitsTwoBursts(c, "", rate);
      }
    }
  }

  lemma EmptyRun(c: Config)
    ensures Run(c, map[], []) == map[]
  {
  }

  /** With the defaults the bound is exact at the default rate of 60 a minute and off by
      one request at 7 a minute. */
  lemma SixtyIsExactAndSevenIsNot()
    ensures KeepsExactBound(WithDefaults(0, 0), Rate(0)) && !KeepsExactBound(WithDefaults(0, 0), 7)
  {
    ExactBoundExactlyWhen(WithDefaults(0, 0), 60);
    ExactBoundExactlyWhen(WithDefaults(0, 0), 7);
    assert Rate(0) == 60;
    hide KeepsExactBound;
  }

  // ---- Denials ----------------------------------------------------------------------------

  /** As long as no request for the key is admitted, its level at any later time is what
      it would have been with no request at all, so retrying never puts admission off.
      Only a bucket that the janitor deletes too early makes the level higher. */
  lemma {:induction false} DenialsAreFree(c: Config, m: Buckets, events: seq<Event>, key: string, rate: int,
                                          from: Time, to: Time, t: Time)
    requires c.burst > 0 && rate > 0 && AllOk(c, m, from) && Within(events, from, to) && AtRate(events, key, rate)
    requires Admitted(c, m, events, key) == 0 && to <= t
    ensures Available(c, Run(c, m, events), key, rate, t) >= Available(c, m, key, rate, t)
    ensures HarmlessSweeps(c, m, events, key, rate) ==>
      Available(c, Run(c, m, events), key, rate, t) == Available(c, m, key, rate, t)
    decreases |events|
  {
    if events != [] {
      hide Available, Next, AllOk, Takes, Harmless, Rate, Level, Refill;
      var front, e := events[..|events| - 1], events[|events| - 1];
      var before := Run(c, m, front);
      Front(events, key, rate, from, to);
      DenialsAreFree(c, m, front, key, rate, from, e.now, t);
      RunKeepsOk(c, m, front, from, e.now);
      NextKeepsOk(c, before, e, e.now);
      EventTakes(c, before, e, key, rate);
      AvailableGrows(c, before, key, rate, e.now, t);
      AvailableGrows(c, Next(c, before, e), key, rate, e.now, t);
    }
  }

  /** A request is admitted when the delay it was given has passed, if no other request
      for the key was admitted in between, and not before if the janitor only deletes
      full buckets. */
  lemma DelayIsExact(c: Config, m: Buckets, key: string, rpm: int, now: Time, events: seq<Event>, t: Time)
    requires c.burst > 0 && AllOk(c, m, now)
    requires Answer(c, BucketFor(c, m, key, rpm, now), now).Denied?
    requires Within(events, now, t) && AtRate(events, key, Rate(rpm))
    requires Admitted(c, Next(c, m, Request(key, rpm, now)), events, key) == 0
    ensures
      var delay := Answer(c, BucketFor(c, m, key, rpm, now), now).retryAfter;
      var later := Run(c, Next(c, m, Request(key, rpm, now)), events);
      && (t - now >= delay ==> Admits(c, later, key, rpm, t))
      && (RefillsBeforeSweep(c, Rate(rpm)) && t - now < delay ==> !Admits(c, later, key, rpm, t))
  {
    var e, rate := Request(key, rpm, now), Rate(rpm);
    var m', level := Next(c, m, e), Available(c, m, key, rate, now);
    var later := Run(c, m', events);
    var delay := Answer(c, BucketFor(c, m, key, rpm, now), now).retryAfter;
    DelayOfLevel(c, m, key, rpm, now);
    hide Answer, Available, Refill, Next, Run, AllOk, RefillsBeforeSweep;
    NextKeepsOk(c, m, e, now);
    EventTakes(c, m, e, key, rate);
    DenialsAreFree(c, m', events, key, rate, now, t, t);
    AvailableGrows(c, m', key, rate, now, t);
    AdmitsExactly(c, later, key, rpm, t);
    RefillGrows(rate, 0, 1);
    if t - now >= delay {
      RefillGrows(rate, delay, t - now);
      RefillAdds(rate, delay, 1);
    } else if RefillsBeforeSweep(c, rate) {
      RefillIsHarmless(c, m', events, key, rate, now, t);
      RefillGrows(rate, t - now, delay - 1);
      RefillAdds(rate, delay - 1, 1);
    }
  }

  lemma DelayOfLevel(c: Config, m: Buckets, key: string, rpm: int, now: Time)
    requires Answer(c, BucketFor(c, m, key, rpm, now), now).Denied?
    ensures
      var deficit := TOKEN - Available(c, m, key, Rate(rpm), now);
      var delay := Answer(c, BucketFor(c, m, key, rpm, now), now).retryAfter;
      Refill(Rate(rpm), delay) <= deficit < Refill(Rate(rpm), delay + 1) && delay > 0
  {
    var b := BucketFor(c, m, key, rpm, now);
    hide Refill;
    RefillGrows(b.rpm, 0, 0);
    DelayRoundsDown(TOKEN - Level(c, b, now), b.rpm);
  }

  /** The Retry-After header, in seconds. */
  function RetryAfter(delay: int): int {
    delay / SECOND + 1
  }

  /** It is the least whole number of seconds that is longer than the delay. */
  lemma RetryAfterIsLeast(delay: int, seconds: int)
    requires delay >= 0
    ensures seconds * SECOND > delay <==> seconds >= RetryAfter(delay)
  {
  }

  /** A caller that stays away for the advertised seconds is admitted, whatever other
      callers and the janitor do meanwhile. */
  lemma RetryAfterIsSound(c: Config, m: Buckets, key: string, rpm: int, now: Time, events: seq<Event>, t: Time)
    requires c.burst > 0 && AllOk(c, m, now)
    requires Answer(c, BucketFor(c, m, key, rpm, now), now).Denied?
    requires Within(events, now, t) && forall i | 0 <= i < |events| :: events[i].Request? ==> events[i].key != key
    requires t >= now + RetryAfter(Answer(c, BucketFor(c, m, key, rpm, now), now).retryAfter) * SECOND
    ensures Admits(c, Run(c, Next(c, m, Request(key, rpm, now)), events), key, rpm, t)
  {
    NoRequestNoAdmission(c, Next(c, m, Request(key, rpm, now)), events, key);
    hide Answer, Next, Admits, Run;
    DelayIsExact(c, m, key, rpm, now, events, t);
  }

  lemma {:induction false} NoRequestNoAdmission(c: Config, m: Buckets, events: seq<Event>, key: string)
    requires forall i | 0 <= i < |events| :: events[i].Request? ==> events[i].key != key
    ensures Admitted(c, m, events, key) == 0
  {
    if events != [] {
      NoRequestNoAdmission(c, m, events[..|events| - 1], key);
    }
  }
}
