/** The keyed token-bucket limiter. Time is one logical clock in nanoseconds. Tokens
    are counted in units of 1 / 60e9 of a request, so that a bucket of r requests a
    minute gains exactly r units a nanosecond. A delay is a whole number of
    nanoseconds, rounded down, as time.Duration is. Looking a bucket up, reserving
    from it, asking for the delay and cancelling happen at one instant; LimiterRaces
    and Reservations take these apart. */
module TokenBucket {
  type Time = int

  /** Units in one token: nanoseconds in a minute. */
  const TOKEN: int := 60_000_000_000
  const SECOND: int := 1_000_000_000

  /** rate.Limiter and the fields kept beside it. */
  datatype Bucket = Bucket(tokens: int, last: Time, lastSeen: Time, rpm: int)

  type Buckets = map<string, Bucket>

  datatype Config = Config(burst: int, idleTTL: int)

  datatype Verdict = Allowed | Denied(retryAfter: int)

  datatype Event = Request(key: string, rpm: int, now: Time) | Sweep(now: Time)

  function WithDefaults(burst: int, idleTTL: int): Config {
    Config(if burst <= 0 then 10 else burst, if idleTTL <= 0 then 10 * TOKEN else idleTTL)
  }

  function Rate(rpm: int): int {
    if rpm <= 0 then 60 else rpm
  }

  function Min(x: int, y: int): int {
    if x <= y then x else y
  }

  /** The units gained at a rate in a time. */
  function Refill(rate: int, elapsed: int): int {
    rate * elapsed
  }

  lemma RefillAdds(rate: int, a: int, b: int)
    ensures Refill(rate, a + b) == Refill(rate, a) + Refill(rate, b)
  {
  }

  lemma RefillGrows(rate: int, a: int, b: int)
    requires rate > 0 && a <= b
    ensures Refill(rate, a) <= Refill(rate, b) && Refill(rate, 0) == 0 && Refill(rate, 1) == rate
  {
    assert rate * (b - a) >= 0;
  }

  lemma AtLeastOne(rate: int, elapsed: int)
    requires rate > 0 && elapsed >= 0
    ensures Refill(rate, elapsed) >= elapsed
  {
    assert (rate - 1) * elapsed >= 0;
  }

  // ---- One bucket ----------------------------------------------------------------

  /** The tokens a bucket has at a time, before the request made then. */
  function Level(c: Config, b: Bucket, now: Time): int {
    Min(c.burst * TOKEN, b.tokens + Refill(b.rpm, if now > b.last then now - b.last else 0))
  }

  /** Reserve one token: how long to wait for it, and the bucket without it. */
  function ReserveOne(c: Config, b: Bucket, now: Time): (int, Bucket)
    requires b.rpm > 0
  {
    var tokens := Level(c, b, now) - TOKEN;
    (if tokens < 0 then -tokens / b.rpm else 0, b.(tokens := tokens, last := now))
  }

  /** Give a reservation made at this instant back. */
  function Cancel(c: Config, b: Bucket, now: Time): Bucket {
    b.(tokens := Min(c.burst * TOKEN, Level(c, b, now) + TOKEN), last := now)
  }

  function BucketFor(c: Config, m: Buckets, key: string, rpm: int, now: Time): (b: Bucket)
    ensures b.rpm == Rate(rpm) > 0 && b.lastSeen == now
  {
    if key in m && m[key].rpm == Rate(rpm) then m[key].(lastSeen := now)
    else Bucket(c.burst * TOKEN, now, now, Rate(rpm))
  }

  /** What Reserve answers. With a burst of at least one, which the defaults ensure, a
      reservation is never refused outright. */
  function Answer(c: Config, b: Bucket, now: Time): Verdict
    requires b.rpm > 0
  {
    var delay := ReserveOne(c, b, now).0;
    if delay == 0 then Allowed else Denied(delay)
  }

  function AfterReserve(c: Config, b: Bucket, now: Time): Bucket
    requires b.rpm > 0
  {
    var (delay, taken) := ReserveOne(c, b, now);
    if delay == 0 then taken else Cancel(c, taken, now)
  }

  function Next(c: Config, m: Buckets, e: Event): Buckets {
    match e
    case Request(key, rpm, now) => m[key := AfterReserve(c, BucketFor(c, m, key, rpm, now), now)]
    case Sweep(now) => map key | key in m && !(m[key].lastSeen < now - c.idleTTL) :: m[key]
  }

  predicate Admits(c: Config, m: Buckets, key: string, rpm: int, now: Time) {
    Answer(c, BucketFor(c, m, key, rpm, now), now).Allowed?
  }

  function Run(c: Config, m: Buckets, events: seq<Event>): Buckets {
    if events == [] then m
    else Next(c, Run(c, m, events[..|events| - 1]), events[|events| - 1])
  }

  /** 1 for an admitted request for the key, 0 for anything else. */
  function Takes(c: Config, m: Buckets, e: Event, key: string): nat {
    if e.Request? && e.key == key && Admits(c, m, key, e.rpm, e.now) then 1 else 0
  }

  /** How many requests for the key the events admit, from the given buckets. */
  function Admitted(c: Config, m: Buckets, events: seq<Event>, key: string): nat {
    if events == [] then 0
    else
      var front := events[..|events| - 1];
      Admitted(c, m, front, key) + Takes(c, Run(c, m, front), events[|events| - 1], key)
  }

  /** The clock does not run backwards. */
  ghost predicate InOrder(events: seq<Event>) {
    forall i, j | 0 <= i <= j < |events| :: events[i].now <= events[j].now
  }

  ghost predicate Within(events: seq<Event>, from: Time, to: Time) {
    from <= to && InOrder(events) && forall i | 0 <= i < |events| :: from <= events[i].now <= to
  }

  /** Every request for the key is made at this rate. */
  ghost predicate AtRate(events: seq<Event>, key: string, rate: int) {
    forall i | 0 <= i < |events| && events[i].Request? && events[i].key == key :: Rate(events[i].rpm) == rate
  }

  // ---- What every bucket satisfies --------------------------------------------------

  /** A bucket may be overdrawn, by less than one nanosecond's refill, because the delay
      is rounded down. */
  ghost predicate BucketOk(c: Config, b: Bucket, now: Time) {
    && b.rpm > 0 && -b.rpm < b.tokens <= c.burst * TOKEN
    && b.last == b.lastSeen <= now
  }

  ghost predicate AllOk(c: Config, m: Buckets, now: Time) {
    forall key | key in m :: BucketOk(c, m[key], now)
  }

  /** The level a request for the key at this rate will find. */
  function Available(c: Config, m: Buckets, key: string, rate: int, now: Time): int {
    if key in m && m[key].rpm == rate then Level(c, m[key], now) else c.burst * TOKEN
  }

  lemma DelayRoundsDown(deficit: int, rpm: int)
    requires deficit >= 0 && rpm > 0
    ensures (deficit / rpm == 0 <==> deficit < rpm)
    ensures Refill(rpm, deficit / rpm) <= deficit < Refill(rpm, deficit / rpm + 1)
  {
    var q := deficit / rpm;
    assert Refill(rpm, q) + deficit % rpm == deficit;
    hide Refill;
    RefillAdds(rpm, q, 1);
    RefillGrows(rpm, 0, 1);
    if q >= 1 {
      RefillGrows(rpm, 1, q);
    }
  }

  /** A request is admitted exactly when the level leaves it short of a token by less
      than one nanosecond's refill. */
  lemma AdmitsExactly(c: Config, m: Buckets, key: string, rpm: int, now: Time)
    ensures Admits(c, m, key, rpm, now) <==> Available(c, m, key, Rate(rpm), now) - TOKEN > -Rate(rpm)
  {
    var b := BucketFor(c, m, key, rpm, now);
    var tokens := Level(c, b, now) - TOKEN;
    if tokens < 0 {
      DelayRoundsDown(-tokens, b.rpm);
    }
  }

  lemma ReserveKeepsOk(c: Config, b: Bucket, now: Time)
    requires c.burst > 0 && BucketOk(c, b.(lastSeen := b.last), now) && b.lastSeen == now
    ensures BucketOk(c, AfterReserve(c, b, now), now) && AfterReserve(c, b, now).rpm == b.rpm
    ensures AfterReserve(c, b, now).last == now
    ensures AfterReserve(c, b, now).tokens == Level(c, b, now) - if Answer(c, b, now).Allowed? then TOKEN else 0
  {
    hide Refill;
    var tokens := Level(c, b, now) - TOKEN;
    RefillGrows(b.rpm, 0, now - b.last);
    if tokens < 0 {
      DelayRoundsDown(-tokens, b.rpm);
    }
  }

  lemma NextKeepsOk(c: Config, m: Buckets, e: Event, now: Time)
    requires c.burst > 0 && AllOk(c, m, now) && now <= e.now
    ensures AllOk(c, Next(c, m, e), e.now)
  {
    if e.Request? {
      ReserveKeepsOk(c, BucketFor(c, m, e.key, e.rpm, e.now), e.now);
    }
  }

  lemma {:induction false} RunKeepsOk(c: Config, m: Buckets, events: seq<Event>, from: Time, to: Time)
    requires c.burst > 0 && AllOk(c, m, from) && Within(events, from, to)
    ensures AllOk(c, Run(c, m, events), to)
  {
    if events != [] {
      var front, e := events[..|events| - 1], events[|events| - 1];
      RunKeepsOk(c, m, front, from, e.now);
      NextKeepsOk(c, Run(c, m, front), e, e.now);
    }
  }

  // ---- The level seen by one key ------------------------------------------------------

  lemma LevelGrows(c: Config, b: Bucket, now: Time, t: Time)
    requires b.rpm > 0 && b.last <= now <= t
    ensures Level(c, b, t) == Min(c.burst * TOKEN, Level(c, b, now) + Refill(b.rpm, t - now))
  {
    hide Refill;
    RefillAdds(b.rpm, now - b.last, t - now);
    RefillGrows(b.rpm, 0, now - b.last);
    RefillGrows(b.rpm, 0, t - now);
  }

  /** As time passes the level grows at the rate, up to the burst. */
  lemma AvailableGrows(c: Config, m: Buckets, key: string, rate: int, now: Time, t: Time)
    requires rate > 0 && AllOk(c, m, now) && now <= t
    ensures Available(c, m, key, rate, t)
         == Min(c.burst * TOKEN, Available(c, m, key, rate, now) + Refill(rate, t - now))
  {
    hide Refill, Level;
    RefillGrows(rate, 0, t - now);
    if key in m && m[key].rpm == rate {
      LevelGrows(c, m[key], now, t);
    }
  }

  lemma AvailableIsBounded(c: Config, m: Buckets, key: string, rate: int, now: Time)
    requires c.burst > 0 && rate > 0 && AllOk(c, m, now)
    ensures -rate < Available(c, m, key, rate, now) <= c.burst * TOKEN
  {
    hide Refill;
    if key in m && m[key].rpm == rate {
      RefillGrows(rate, 0, now - m[key].last);
    }
  }

  /** If the janitor deletes the key's bucket, that bucket is full. */
  ghost predicate Harmless(c: Config, m: Buckets, e: Event, key: string, rate: int) {
    e.Sweep? && key in m && m[key].rpm == rate && m[key].lastSeen < e.now - c.idleTTL ==>
      Level(c, m[key], e.now) == c.burst * TOKEN
  }

  ghost predicate HarmlessSweeps(c: Config, m: Buckets, events: seq<Event>, key: string, rate: int) {
    events != [] ==>
      var front := events[..|events| - 1];
      HarmlessSweeps(c, m, front, key, rate) && Harmless(c, Run(c, m, front), events[|events| - 1], key, rate)
  }

  /** One event takes one token from the key's level if it is an admitted request for
      the key, and otherwise leaves the level alone: a denial and a request for another
      key are free, and the janitor can only raise the level. */
  lemma EventTakes(c: Config, m: Buckets, e: Event, key: string, rate: int)
    requires c.burst > 0 && rate > 0 && AllOk(c, m, e.now)
    requires e.Request? && e.key == key ==> Rate(e.rpm) == rate
    ensures Available(c, Next(c, m, e), key, rate, e.now)
      >= Available(c, m, key, rate, e.now) - TOKEN * Takes(c, m, e, key)
    ensures Harmless(c, m, e, key, rate) ==>
      Available(c, Next(c, m, e), key, rate, e.now)
      == Available(c, m, key, rate, e.now) - TOKEN * Takes(c, m, e, key)
  {
    hide Refill, AfterReserve, Answer;
    RefillGrows(rate, 0, 0);
    if e.Request? && e.key == key {
      ReserveKeepsOk(c, BucketFor(c, m, key, e.rpm, e.now), e.now);
    }
  }

  // ---- The rate bound -------------------------------------------------------------------

  lemma Front(events: seq<Event>, key: string, rate: int, from: Time, to: Time)
    requires events != [] && Within(events, from, to) && AtRate(events, key, rate)
    ensures
      var front, e := events[..|events| - 1], events[|events| - 1];
      && Within(front, from, e.now) && AtRate(front, key, rate) && e.now <= to
      && (e.Request? && e.key == key ==> Rate(e.rpm) == rate)
  {
  }

  /** What is admitted and what is left never exceed the burst and the refill. */
  lemma {:induction false} Budget(c: Config, m: Buckets, events: seq<Event>, key: string, rate: int,
                                  from: Time, to: Time)
    requires c.burst > 0 && rate > 0 && AllOk(c, m, from) && Within(events, from, to) && AtRate(events, key, rate)
    requires HarmlessSweeps(c, m, events, key, rate)
    ensures Admitted(c, m, events, key) * TOKEN + Available(c, Run(c, m, events), key, rate, to)
         <= c.burst * TOKEN + Refill(rate, to - from)
    decreases |events|
  {
    hide Available, Next, AllOk, Takes, Harmless, Rate, Level, Refill;
    RunKeepsOk(c, m, events, from, to);
    if events == [] {
      AvailableIsBounded(c, m, key, rate, to);
      RefillGrows(rate, 0, to - from);
    } else {
      var front, e := events[..|events| - 1], events[|events| - 1];
      var before := Run(c, m, front);
      Front(events, key, rate, from, to);
      hide Within, InOrder, AtRate;
      Budget(c, m, front, key, rate, from, e.now);
      RunKeepsOk(c, m, front, from, e.now);
      EventTakes(c, before, e, key, rate);
      NextKeepsOk(c, before, e, e.now);
      AvailableGrows(c, Next(c, before, e), key, rate, e.now, to);
      RefillAdds(rate, e.now - from, to - e.now);
      assert (e.now - from) + (to - e.now) == to - from;
    }
  }

  /** A bucket regains the whole burst in the time it is kept unused. */
  predicate RefillsBeforeSweep(c: Config, rate: int) {
    c.burst * TOKEN <= Refill(rate, c.idleTTL)
  }

  /** A bucket that the janitor deletes is already full. */
  lemma SweptIsFull(c: Config, b: Bucket, now: Time)
    requires BucketOk(c, b, now) && b.lastSeen < now - c.idleTTL
    requires RefillsBeforeSweep(c, b.rpm)
    ensures Level(c, b, now) == c.burst * TOKEN
  {
    hide Refill;
    RefillGrows(b.rpm, c.idleTTL + 1, now - b.last);
    RefillAdds(b.rpm, c.idleTTL, 1);
  }

  lemma {:induction false} RefillIsHarmless(c: Config, m: Buckets, events: seq<Event>, key: string, rate: int,
                                            from: Time, to: Time)
    requires c.burst > 0 && rate > 0 && AllOk(c, m, from) && Within(events, from, to)
    requires RefillsBeforeSweep(c, rate)
    ensures HarmlessSweeps(c, m, events, key, rate)
    decreases |events|
  {
    if events != [] {
      var front, e := events[..|events| - 1], events[|events| - 1];
      var before := Run(c, m, front);
      hide AllOk, Run, Next, Level, RefillsBeforeSweep;
      RefillIsHarmless(c, m, front, key, rate, from, e.now);
      RunKeepsOk(c, m, front, from, e.now);
      if key in before && before[key].rpm == rate && before[key].lastSeen < e.now - c.idleTTL {
        SweptIsFull(c, before[key], e.now);
      }
    }
  }

  /** With the default settings no rate is slow enough for the janitor to matter. */
  lemma DefaultsRefill(rate: int)
    requires rate > 0
    ensures RefillsBeforeSweep(WithDefaults(0, 0), rate)
  {
    hide Refill;
    AtLeastOne(rate, 10 * TOKEN);
  }

  /** A run of events in a window of time, after any history. */
  ghost predicate Window(history: seq<Event>, events: seq<Event>, key: string, rate: int, from: Time, to: Time) {
    && InOrder(history) && (history != [] ==> history[|history| - 1].now <= from)
    && Within(events, from, to) && AtRate(events, key, rate)
  }

  lemma HistoryIsOk(c: Config, history: seq<Event>, from: Time)
    requires c.burst > 0 && InOrder(history)
    requires history != [] ==> history[|history| - 1].now <= from
    ensures AllOk(c, Run(c, map[], history), from)
  {
    if history != [] {
      RunKeepsOk(c, map[], history, history[0].now, from);
    }
  }

  /** In any window, after any history, the requests admitted for a key at an unchanged
      rate are at most the burst and what refills in the window. A reservation may be
      short by less than one nanosecond's refill, which is where the last term comes
      from. */
  lemma RateBound(c: Config, history: seq<Event>, events: seq<Event>, key: string, rate: int,
                  from: Time, to: Time)
    requires c.burst > 0 && rate > 0 && RefillsBeforeSweep(c, rate)
    requires Window(history, events, key, rate, from, to)
    ensures Admitted(c, Run(c, map[], history), events, key) * TOKEN
         < c.burst * TOKEN + Refill(rate, to - from) + rate
  {
    HistoryIsOk(c, history, from);
    var m := Run(c, map[], history);
    RefillIsHarmless(c, m, events, key, rate, from, to);
    Budget(c, m, events, key, rate, from, to);
    RunKeepsOk(c, m, events, from, to);
    AvailableIsBounded(c, Run(c, m, events), key, rate, to);
  }
}
