/** What holds of a bucket when the calls of many requests overlap and take time: the rate
    bound, with what refills between a request's Reserve and its Delay, and what a denial
    costs. */
module Overlap {
  import opened Shortfall
  import opened TokenBucket
  import opened Reservations

  // ---- The rate bound ------------------------------------------------------------------

  predicate GrantedWithin(r: Reservation, from: Time, to: Time) {
    r.status.Granted? && from <= r.status.at <= to
  }

  /** How many of the first reservations are admitted in a window: when Delay says so. */
  function Grants(log: seq<Reservation>, hi: nat, from: Time, to: Time): nat
    requires hi <= |log|
  {
    if hi == 0 then 0 else Grants(log, hi - 1, from, to) + One(GrantedWithin(log[hi - 1], from, to))
  }

  /** No admitted request took longer than g from its Reserve to its Delay. */
  ghost predicate GapsWithin(log: seq<Reservation>, g: int) {
    forall i | 0 <= i < |log| && log[i].status.Granted? :: log[i].status.at <= log[i].taken + g
  }

  lemma {:induction false} GrantsAreLive(log: seq<Reservation>, lo: nat, hi: nat, from: Time, to: Time)
    requires lo <= hi <= |log|
    ensures Grants(log, hi, from, to) <= Grants(log, lo, from, to) + Live(log, lo, hi)
    decreases hi
  {
    if lo < hi {
      GrantsAreLive(log, lo, hi - 1, from, to);
    }
  }

  lemma {:induction false} FirstGrant(log: seq<Reservation>, hi: nat, from: Time, to: Time) returns (a: nat)
    requires hi <= |log| && Grants(log, hi, from, to) > 0
    ensures a < hi && GrantedWithin(log[a], from, to) && Grants(log, a, from, to) == 0
  {
    if Grants(log, hi - 1, from, to) > 0 {
      a := FirstGrant(log, hi - 1, from, to);
    } else {
      a := hi - 1;
    }
  }

  lemma {:induction false} LastGrant(log: seq<Reservation>, hi: nat, from: Time, to: Time) returns (i: nat)
    requires hi <= |log| && Grants(log, hi, from, to) > 0
    ensures i < hi && GrantedWithin(log[i], from, to) && Grants(log, i + 1, from, to) == Grants(log, hi, from, to)
  {
    if GrantedWithin(log[hi - 1], from, to) {
      i := hi - 1;
    } else {
      i := LastGrant(log, hi - 1, from, to);
    }
  }

  /** The first and the last one admitted in a window, and what was admitted from the one to
      the other: a burst and the refill, and what the last one was overdrawn by. */
  lemma GrantsBetween(p: Rules, m: Meter, now: Time, from: Time, to: Time) returns (a: nat, i: nat)
    requires MeterOk(p, m, now) && Grants(m.log, |m.log|, from, to) > 0
    ensures a <= i < |m.log| && GrantedWithin(m.log[a], from, to) && GrantedWithin(m.log[i], from, to)
    ensures EntryOk(p, m.log[a], now) && EntryOk(p, m.log[i], now)
    ensures
      var first, last := m.log[a], m.log[i];
      Grants(m.log, |m.log|, from, to) * TOKEN + last.left + Refill(p.rate, last.due - last.taken)
        <= p.burst * TOKEN + Refill(p.rate, last.due - first.taken)
  {
    hide Refill, Live, LevelOf, Restorable, Owed, Apart, Budgeted;
    var n := |m.log|;
    a := FirstGrant(m.log, n, from, to);
    i := LastGrant(m.log, n, from, to);
    InThatOrder(m.log, a, i, from, to);
    GrantsAreLive(m.log, a, i + 1, from, to);
    assert EntryOk(p, m.log[i], now) && EntryOk(p, m.log[a], now) && Backed(p, m.log, a, i);
    RefillAdds(p.rate, m.log[i].taken - m.log[a].taken, m.log[i].due - m.log[i].taken);
  }

  /** However the calls overlap: in any window at most the burst, and what refills in the
      window and in the longest time from a Reserve to its Delay, rounded. */
  lemma OverlapBound(p: Rules, m: Meter, now: Time, g: int, from: Time, to: Time)
    requires MeterOk(p, m, now) && GapsWithin(m.log, g) && g >= 0 && from <= to
    ensures Grants(m.log, |m.log|, from, to) * TOKEN < p.burst * TOKEN + Refill(p.rate, to - from + g) + p.rate
  {
    hide Refill, MeterOk;
    RulesHold(p, m, now);
    if Grants(m.log, |m.log|, from, to) == 0 {
      RefillGrows(p.rate, 0, to - from + g);
    } else {
      var a, i := GrantsBetween(p, m, now, from, to);
      RefillGrows(p.rate, m.log[i].due - m.log[a].taken, to - from + g);
    }
  }

  lemma {:induction false} InThatOrder(log: seq<Reservation>, a: nat, i: nat, from: Time, to: Time)
    requires a < |log| && i < |log| && GrantedWithin(log[i], from, to) && Grants(log, a, from, to) == 0
    ensures a <= i
    decreases a
  {
    if 0 < a && i < a - 1 {
      InThatOrder(log, a - 1, i, from, to);
    }
  }

  // ---- Runs of calls on a fresh bucket --------------------------------------------------

  /** The bound, of every window of every run in which no admitted request takes longer than
      g from its Reserve to its Delay; `slack` is what it allows for rounding. */
  ghost predicate KeepsBound(p: Rules, g: int, slack: int)
    requires p.rate > 0
  {
    forall calls, start, end, from, to | InTime(calls, start, end) && from <= to
      && GapsWithin(Play(p, Fresh(p, start), calls).log, g) ::
      var log := Play(p, Fresh(p, start), calls).log;
      Grants(log, |log|, from, to) * TOKEN <= p.burst * TOKEN + Refill(p.rate, to - from) + slack
  }

  lemma PlayMore(p: Rules, m: Meter, calls: seq<Call>, call: Call)
    requires p.rate > 0
    ensures Play(p, m, calls + [call]) == After(p, Play(p, m, calls), call)
  {
    assert (calls + [call])[..|calls + [call]| - 1] == calls;
  }

  function Reserves(n: nat): (calls: seq<Call>)
    ensures |calls| == n && forall i | 0 <= i < n :: calls[i] == Reserve(0)
  {
    if n == 0 then [] else Reserves(n - 1) + [Reserve(0)]
  }

  function Delays(n: nat, at: Time): (calls: seq<Call>)
    ensures |calls| == n && forall i | 0 <= i < n :: calls[i] == Delay(i, at)
  {
    if n == 0 then [] else Delays(n - 1, at) + [Delay(n - 1, at)]
  }

  /** n reservations at the start, the first k of them admitted later. */
  function Made(p: Rules, n: nat, k: nat, at: Time): seq<Reservation> {
    seq(n, i requires 0 <= i < n =>
      Reservation(0, 0, p.burst * TOKEN - (i + 1) * TOKEN, if i < k then Granted(at) else Waiting))
  }

  lemma {:induction false} AfterReserves(p: Rules, n: nat, at: Time)
    requires RulesOk(p) && n <= p.burst
    ensures Play(p, Fresh(p, 0), Reserves(n)) == Meter(p.burst * TOKEN - n * TOKEN, 0, 0, Made(p, n, 0, at))
  {
    if n == 0 {
      assert Made(p, 0, 0, at) == [];
    } else {
      AfterReserves(p, n - 1, at);
      PlayMore(p, Fresh(p, 0), Reserves(n - 1), Reserve(0));
      LevelAtLast(p, Meter(p.burst * TOKEN - (n - 1) * TOKEN, 0, 0, Made(p, n - 1, 0, at)), 0);
      assert Made(p, n - 1, 0, at) + [Reservation(0, 0, p.burst * TOKEN - n * TOKEN, Waiting)] == Made(p, n, 0, at);
    }
  }

  lemma DelayOne(p: Rules, tokens: int, n: nat, k: nat, at: Time)
    requires p.rate > 0 && 0 < k <= n && at >= 0
    ensures After(p, Meter(tokens, 0, 0, Made(p, n, k - 1, at)), Delay(k - 1, at)) == Meter(tokens, 0, 0, Made(p, n, k, at))
  {
    assert Made(p, n, k - 1, at)[k - 1 := Made(p, n, k, at)[k - 1]] == Made(p, n, k, at);
  }

  lemma {:induction false} AfterDelays(p: Rules, n: nat, k: nat, at: Time)
    requires RulesOk(p) && n <= p.burst && k <= n && at >= 0
    ensures Play(p, Fresh(p, 0), Reserves(n) + Delays(k, at))
         == Meter(p.burst * TOKEN - n * TOKEN, 0, 0, Made(p, n, k, at))
    decreases k
  {
    hide Play, Made, After, Fresh, Reserves;
    if k == 0 {
      AfterReserves(p, n, at);
      assert Reserves(n) + Delays(0, at) == Reserves(n);
    } else {
      AfterDelays(p, n, k - 1, at);
      assert Reserves(n) + Delays(k, at) == (Reserves(n) + Delays(k - 1, at)) + [Delay(k - 1, at)];
      PlayMore(p, Fresh(p, 0), Reserves(n) + Delays(k - 1, at), Delay(k - 1, at));
      DelayOne(p, p.burst * TOKEN - n * TOKEN, n, k, at);
    }
  }

  /** A whole burst is reserved at the start and admitted later, and one request more as
      soon as the next token is in. */
  function HeldBurst(p: Rules, at: Time): seq<Call>
    requires RulesOk(p)
  {
    var u := TOKEN / p.rate;
    (Reserves(p.burst) + Delays(p.burst, at)) + [Reserve(u)] + [Delay(p.burst, u)]
  }

  lemma OneMoreGrant(p: Rules, at: Time)
    requires RulesOk(p) && 0 <= at <= 1
    ensures
      var u := TOKEN / p.rate;
      var left := Refill(p.rate, u) - TOKEN;
      Play(p, Fresh(p, 0), HeldBurst(p, at)).log == Made(p, p.burst, p.burst, at) + [Reservation(u, u, left, Granted(u))]
  {
    var u := TOKEN / p.rate;
    var calls := Reserves(p.burst) + Delays(p.burst, at);
    var m, left := Meter(0, 0, 0, Made(p, p.burst, p.burst, at)), Refill(p.rate, u) - TOKEN;
    AfterDelays(p, p.burst, p.burst, at);
    assert Play(p, Fresh(p, 0), calls) == m;
    PlayMore(p, Fresh(p, 0), calls, Reserve(u));
    PlayMore(p, Fresh(p, 0), calls + [Reserve(u)], Delay(p.burst, u));
    WholeToken(p.rate);
    RefillAdds(p.rate, u, 1);
    NextToken(p, m, u, left);
  }

  lemma NextToken(p: Rules, m: Meter, u: Time, left: int)
    requires RulesOk(p) && m.tokens == 0 == m.last && u >= 0
    requires left == Refill(p.rate, u) - TOKEN && -p.rate < left <= 0
    ensures
      var m1 := Taken(p, m, u);
      && m1.log == m.log + [Reservation(u, u, left, Waiting)]
      && After(p, m1, Delay(|m.log|, u)).log == m.log + [Reservation(u, u, left, Granted(u))]
  {
    DelayRoundsDown(-left, p.rate);
    var m1 := Taken(p, m, u);
    hide Refill;
    assert LevelOf(p, m, u) == left + TOKEN;
    assert m1.log[|m.log| := Reservation(u, u, left, Granted(u))] == m.log + [Reservation(u, u, left, Granted(u))];
  }

  lemma {:induction false} AllGranted(log: seq<Reservation>, hi: nat, from: Time, to: Time)
    requires hi <= |log| && forall i | 0 <= i < hi :: GrantedWithin(log[i], from, to)
    ensures Grants(log, hi, from, to) == hi
  {
    if hi > 0 {
      AllGranted(log, hi - 1, from, to);
    }
  }

  lemma HeldBurstExceeds(p: Rules, at: Time)
    requires RulesOk(p) && 0 <= at <= 1
    ensures
      var u := TOKEN / p.rate;
      var log := Play(p, Fresh(p, 0), HeldBurst(p, at)).log;
      && InTime(HeldBurst(p, at), 0, u) && GapsWithin(log, at) && at <= u
      && Grants(log, |log|, at, u) == p.burst + 1
  {
    OneMoreGrant(p, at);
    WholeToken(p.rate);
    var log := Play(p, Fresh(p, 0), HeldBurst(p, at)).log;
    hide Refill, Play;
    AllGranted(log, p.burst + 1, at, TOKEN / p.rate);
  }

  lemma BoundOfRuns(p: Rules, calls: seq<Call>, start: Time, end: Time, g: int, from: Time, to: Time)
    requires RulesOk(p) && p.rate > 0 && g >= 0 && InTime(calls, start, end) && from <= to
    requires GapsWithin(Play(p, Fresh(p, start), calls).log, g)
    ensures
      var log := Play(p, Fresh(p, start), calls).log;
      Grants(log, |log|, from, to) * TOKEN < p.burst * TOKEN + Refill(p.rate, to - from + g) + p.rate
  {
    hide *;
    PlayKeepsOk(p, calls, start, end);
    OverlapBound(p, Play(p, Fresh(p, start), calls), end, g, from, to);
  }

  lemma Exceeded(p: Rules, g: int, slack: int, calls: seq<Call>, start: Time, end: Time, from: Time, to: Time)
    requires p.rate > 0 && InTime(calls, start, end) && from <= to && GapsWithin(Play(p, Fresh(p, start), calls).log, g)
    requires
      var log := Play(p, Fresh(p, start), calls).log;
      Grants(log, |log|, from, to) * TOKEN > p.burst * TOKEN + Refill(p.rate, to - from) + slack
    ensures !KeepsBound(p, g, slack)
  {
    hide Play, Grants, GapsWithin, InTime, Refill;
  }

  lemma WiderGaps(log: seq<Reservation>, g: int, g': int)
    requires GapsWithin(log, g) && g <= g'
    ensures GapsWithin(log, g')
  {
  }

  /** Any time between Reserve and Delay breaks the bound, by a nanosecond's refill. */
  lemma GapBreaksIt(p: Rules, g: int, slack: int)
    requires RulesOk(p) && g > 0 && slack < p.rate
    ensures !KeepsBound(p, g, slack)
  {
    hide Play, Grants, GapsWithin, InTime, KeepsBound, HeldBurst;
    var u := TOKEN / p.rate;
    HeldBurstExceeds(p, 1);
    WiderGaps(Play(p, Fresh(p, 0), HeldBurst(p, 1)).log, 1, g);
    WholeToken(p.rate);
    RefillAdds(p.rate, u - 1, 1);
    RefillGrows(p.rate, 0, 1);
    hide Refill;
    Exceeded(p, g, slack, HeldBurst(p, 1), 0, u, 1, u);
  }

  lemma RoundingBreaksIt(p: Rules, g: int)
    requires RulesOk(p) && g >= 0 && TOKEN % p.rate != 0
    ensures !KeepsBound(p, g, 0)
  {
    hide Play, Grants, GapsWithin, InTime, KeepsBound, HeldBurst;
    var u := TOKEN / p.rate;
    HeldBurstExceeds(p, 0);
    WiderGaps(Play(p, Fresh(p, 0), HeldBurst(p, 0)).log, 0, g);
    assert Refill(p.rate, u) + TOKEN % p.rate == TOKEN;
    hide Refill;
    assert u - 0 == u;
    Exceeded(p, g, 0, HeldBurst(p, 0), 0, u, 0, u);
  }

  lemma KeptAtOnce(p: Rules)
    requires RulesOk(p)
    ensures KeepsBound(p, 0, p.rate - 1) && (TOKEN % p.rate == 0 ==> KeepsBound(p, 0, 0))
  {
    hide Play, Grants, GapsWithin, InTime, Refill;
    forall calls, start, end, from, to | InTime(calls, start, end) && from <= to
        && GapsWithin(Play(p, Fresh(p, start), calls).log, 0)
      ensures
        var log := Play(p, Fresh(p, start), calls).log;
        var bound := p.burst * TOKEN + Refill(p.rate, to - from);
        Grants(log, |log|, from, to) * TOKEN <= bound + p.rate - 1
        && (TOKEN % p.rate == 0 ==> Grants(log, |log|, from, to) * TOKEN <= bound)
    {
      BoundOfRuns(p, calls, start, end, 0, from, to);
      var log := Play(p, Fresh(p, start), calls).log;
      assert to - from + 0 == to - from;
      if TOKEN % p.rate == 0 {
        AmongMultiples(p, Grants(log, |log|, from, to), to - from);
      }
    }
  }

  lemma AmongMultiples(p: Rules, n: int, elapsed: int)
    requires RulesOk(p) && TOKEN % p.rate == 0 && n * TOKEN < p.burst * TOKEN + Refill(p.rate, elapsed) + p.rate
    ensures n * TOKEN <= p.burst * TOKEN + Refill(p.rate, elapsed)
  {
    var q := TOKEN / p.rate;
    var d := (n - p.burst) * q - elapsed;
    TimesToken(p.rate, q, n - p.burst);
    assert p.rate * d == (n - p.burst) * TOKEN - Refill(p.rate, elapsed);
    SmallMultiple(p.rate, d);
  }

  lemma TimesToken(rate: int, q: int, n: int)
    requires TOKEN == rate * q
    ensures n * TOKEN == rate * (n * q)
  {
    assert n * (rate * q) == rate * (n * q);
  }

  /** The exact conditions, for calls that overlap in any way: the bound with rounding holds
      if and only if no time passes between a Reserve and its Delay; the bound without
      rounding if and only if, besides, the rate divides a token. */
  lemma BoundExactlyWhenAtOnce(p: Rules, g: int)
    requires RulesOk(p) && g >= 0
    ensures KeepsBound(p, g, p.rate - 1) <==> g == 0
    ensures KeepsBound(p, g, 0) <==> g == 0 && TOKEN % p.rate == 0
  {
    hide KeepsBound;
    if g > 0 {
      GapBreaksIt(p, g, p.rate - 1);
      GapBreaksIt(p, g, 0);
    } else {
      KeptAtOnce(p);
      if TOKEN % p.rate != 0 {
        RoundingBreaksIt(p, g);
      }
    }
  }

  // ---- What a denial costs ------------------------------------------------------------------

  lemma NothingOpen(log: seq<Reservation>, now: Time)
    ensures Open(log, 0, 0, now) == 0
  {
  }

  /** Cancelling a denial gives the token back if and only if its due time has not passed and
      no later reservation is due. */
  lemma DenialIsFreeExactlyWhen(p: Rules, m: Meter, i: nat, now: Time)
    requires MeterOk(p, m, now) && i < |m.log| && m.log[i].status.Refused?
    ensures LevelOf(p, After(p, m, Cancel(i, now)), now) == LevelOf(p, m, now) + TOKEN
       <==> now <= m.log[i].due == m.lastEvent
  {
    hide Refill, LevelOf, Open, Live, Owed, Apart, Budgeted, Backed, EntryOk, GivenBack;
    CancelRaises(p, m, i, now);
    BackIsBounded(p, m, i, now);
    if Restorable(m.log[i], now) {
      NothingOpen(m.log, now);
      RoomForAll(p, m, now, 0);
      OpenSplits(m.log, 0, i, |m.log|, now);
      OneMoreOpen(m.log, i, |m.log|, now);
    }
  }

  /** In particular if nothing was reserved after it and it is cancelled in time. */
  lemma LatestDenialIsFree(p: Rules, m: Meter, now: Time)
    requires MeterOk(p, m, now) && m.log != [] && m.log[|m.log| - 1].status.Refused?
    requires now <= m.log[|m.log| - 1].due
    ensures LevelOf(p, After(p, m, Cancel(|m.log| - 1, now)), now) == LevelOf(p, m, now) + TOKEN
  {
    hide Refill, LevelOf, Open, Live, Owed, Apart, Budgeted, Backed, EntryOk, GivenBack;
    DenialIsFreeExactlyWhen(p, m, |m.log| - 1, now);
  }

  /** All calls of one request at one instant are the one event of the atomic model. */
  lemma AtOneInstant(p: Rules, m: Meter, now: Time, c: Config, seen: Time)
    requires RulesOk(p) && m.last <= now && m.tokens <= p.burst * TOKEN && c.burst == p.burst
    ensures
      var b := Bucket(m.tokens, m.last, seen, p.rate);
      var i := |m.log|;
      var m2 := After(p, After(p, m, Reserve(now)), Delay(i, now));
      var m3 := After(p, m2, Cancel(i, now));
      && (m2.log[i].status.Granted? <==> Answer(c, b, now).Allowed?)
      && (m2.log[i].status.Refused? ==> Answer(c, b, now).retryAfter == m2.log[i].due - now)
      && AfterReserve(c, b, now) == b.(tokens := m3.tokens, last := m3.last)
  {
    var left := LevelOf(p, m, now) - TOKEN;
    if left < 0 {
      DelayRoundsDown(-left, p.rate);
    }
    RefillGrows(p.rate, 0, 0);
  }

  // ---- Three denials that overlap ----------------------------------------------------------

  lemma PlayThree(p: Rules, m: Meter, a: Call, b: Call, c: Call)
    requires p.rate > 0
    ensures Play(p, m, [a, b, c]) == After(p, After(p, After(p, m, a), b), c)
  {
    hide After;
    PlayMore(p, m, [a, b], c);
    PlayMore(p, m, [a], b);
    PlayMore(p, m, [], a);
    assert [a, b] + [c] == [a, b, c] && [a] + [b] == [a, b] && [] + [a] == [a];
  }

  lemma {:induction false} PlayOn(p: Rules, m: Meter, a: seq<Call>, b: seq<Call>)
    requires p.rate > 0
    ensures Play(p, m, a + b) == Play(p, Play(p, m, a), b)
    decreases b
  {
    hide After;
    if b == [] {
      assert a + b == a;
    } else {
      var n := |b| - 1;
      PlayOn(p, m, a, b[..n]);
      assert (a + b[..n]) + [b[n]] == a + b;
      PlayMore(p, m, a + b[..n], b[n]);
    }
  }

  /** The k-th of the three: taken at once, and due k seconds later. */
  function Denied(k: int, status: Status): Reservation {
    Reservation(0, k * (TOKEN / 60), -k * TOKEN, status)
  }

  /** One request has been admitted, and then the three have made these reservations. */
  function Three(tokens: int, lastEvent: Time, status: Status): Meter {
    Meter(tokens, 0, lastEvent, [Reservation(0, 0, 0, Granted(0)), Denied(1, status), Denied(2, status), Denied(3, status)])
  }

  lemma AllReserve()
    ensures
      var p := Rules(1, 60);
      var m := Play(p, Fresh(p, 0), [Reserve(0), Delay(0, 0), Reserve(0)]);
      After(p, After(p, m, Reserve(0)), Reserve(0)) == Three(-3 * TOKEN, 3 * (TOKEN / 60), Waiting)
  {
    PlayThree(Rules(1, 60), Fresh(Rules(1, 60), 0), Reserve(0), Delay(0, 0), Reserve(0));
  }

  lemma AllRefused()
    ensures Play(Rules(1, 60), Three(-3 * TOKEN, 3 * (TOKEN / 60), Waiting), [Delay(1, 0), Delay(2, 0), Delay(3, 0)])
         == Three(-3 * TOKEN, 3 * (TOKEN / 60), Refused)
  {
    PlayThree(Rules(1, 60), Three(-3 * TOKEN, 3 * (TOKEN / 60), Waiting), Delay(1, 0), Delay(2, 0), Delay(3, 0));
  }

  lemma AllCancelled()
    ensures Play(Rules(1, 60), Three(-3 * TOKEN, 3 * (TOKEN / 60), Refused), [Cancel(1, 0), Cancel(2, 0), Cancel(3, 0)])
         == Three(-2 * TOKEN, 2 * (TOKEN / 60), Withdrawn)
  {
    PlayThree(Rules(1, 60), Three(-3 * TOKEN, 3 * (TOKEN / 60), Refused), Cancel(1, 0), Cancel(2, 0), Cancel(3, 0));
  }

  lemma ThenTwoSecondsAreShort()
    ensures
      var p, later := Rules(1, 60), 2 * (TOKEN / 60);
      var m := Three(-2 * TOKEN, 2 * (TOKEN / 60), Withdrawn);
      && LevelOf(p, m, 0) == -2 * TOKEN
      && After(p, After(p, m, Reserve(later)), Delay(4, later)).log[4].status.Refused?
  {
  }

  function ThreeDenials(): seq<Call> {
    [Reserve(0), Delay(0, 0), Reserve(0)] + [Reserve(0)] + [Reserve(0)]
      + [Delay(1, 0), Delay(2, 0), Delay(3, 0)] + [Cancel(1, 0), Cancel(2, 0), Cancel(3, 0)]
  }

  /** Three denials that overlap, on a bucket of one request and 60 a minute: all are given
      back, yet two lose their tokens. The first had a delay of one second, for which the
      Retry-After header says two, and coming back after two it is denied again. */
  lemma OverlappingDenialsCost()
    ensures
      var p, second := Rules(1, 60), TOKEN / 60;
      var m := Play(p, Fresh(p, 0), ThreeDenials());
      && |m.log| == 4 && (forall i | 1 <= i <= 3 :: m.log[i].status.Withdrawn?)
      && m.log[1].due == second && LevelOf(p, m, 0) == -2 * TOKEN
      && After(p, After(p, m, Reserve(2 * second)), Delay(4, 2 * second)).log[4].status.Refused?
  {
    ThenTwoSecondsAreShort();
    hide After, Fresh, Refill, LevelOf, Play;
    var p := Rules(1, 60);
    var a := [Reserve(0), Delay(0, 0), Reserve(0)];
    AllReserve();
    PlayMore(p, Fresh(p, 0), a, Reserve(0));
    PlayMore(p, Fresh(p, 0), a + [Reserve(0)], Reserve(0));
    var b := a + [Reserve(0)] + [Reserve(0)];
    AllRefused();
    PlayOn(p, Fresh(p, 0), b, [Delay(1, 0), Delay(2, 0), Delay(3, 0)]);
    AllCancelled();
    PlayOn(p, Fresh(p, 0), b + [Delay(1, 0), Delay(2, 0), Delay(3, 0)], [Cancel(1, 0), Cancel(2, 0), Cancel(3, 0)]);
  }
}
