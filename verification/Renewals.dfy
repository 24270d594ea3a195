/** The buckets that a key has one after the other, each with calls that overlap and take
    time. The janitor deletes a bucket that has been idle, and the next request makes a new
    one; requests that hold reservations of the old one may still be on their way. */
module Renewals {
  import opened Shortfall
  import opened TokenBucket
  import opened Reservations
  import opened Overlap

  /** A bucket, from when it is made to the last call on it. */
  datatype Era = Era(start: Time, calls: seq<Call>, end: Time)

  function LogOf(p: Rules, e: Era): seq<Reservation>
    requires p.rate > 0
  {
    Play(p, Fresh(p, e.start), e.calls).log
  }

  ghost predicate EraOk(p: Rules, e: Era, g: int)
    requires p.rate > 0
  {
    InTime(e.calls, e.start, e.end) && GapsWithin(LogOf(p, e), g)
  }

  ghost predicate TakenBy(log: seq<Reservation>, at: Time) {
    forall i | 0 <= i < |log| :: log[i].taken <= at
  }

  /** Nothing has been reserved for this long when the next bucket takes its place. */
  ghost predicate Renews(p: Rules, e: Era, next: Era, idle: int)
    requires p.rate > 0
  {
    e.start <= next.start && TakenBy(LogOf(p, e), next.start - idle)
  }

  ghost predicate ErasOk(p: Rules, eras: seq<Era>, g: int, idle: int)
    requires p.rate > 0
  {
    && (forall k | 0 <= k < |eras| :: EraOk(p, eras[k], g))
    && (forall k | 0 < k < |eras| :: Renews(p, eras[k - 1], eras[k], idle))
  }

  function GrantsIn(p: Rules, e: Era, from: Time, to: Time): nat
    requires p.rate > 0
  {
    Grants(LogOf(p, e), |LogOf(p, e)|, from, to)
  }

  /** All that is admitted from the first n buckets. */
  function AllGrants(p: Rules, eras: seq<Era>, n: nat, from: Time, to: Time): nat
    requires p.rate > 0 && n <= |eras|
  {
    if n == 0 then 0 else AllGrants(p, eras, n - 1, from, to) + GrantsIn(p, eras[n - 1], from, to)
  }

  /** From the emptiest it can be, a bucket refills while it is idle, less the longest time
      from a Reserve to its Delay. */
  predicate RefillsWhileIdle(p: Rules, g: int, idle: int)
    requires p.rate > 0
  {
    p.burst * TOKEN + MaxShortfall(p.rate) <= Refill(p.rate, idle - g)
  }

  // ---- The tokens are on the grid -----------------------------------------------------

  ghost predicate Gridded(p: Rules, m: Meter)
    requires p.rate > 0
  {
    OnGrid(m.tokens, p.rate) && forall i | 0 <= i < |m.log| :: OnGrid(m.log[i].left, p.rate)
  }

  lemma LevelOnGrid(p: Rules, m: Meter, now: Time)
    requires RulesOk(p) && Gridded(p, m)
    ensures OnGrid(LevelOf(p, m, now), p.rate)
  {
    hide OnGrid, Refill;
    BurstIsOnGrid(p.burst, p.rate);
    RefillStaysOnGrid(m.tokens, p.rate, if now > m.last then now - m.last else 0);
  }

  lemma CallKeepsGrid(p: Rules, m: Meter, call: Call)
    requires RulesOk(p) && Gridded(p, m)
    ensures Gridded(p, After(p, m, call))
  {
    hide OnGrid, Refill, LevelOf;
    LevelOnGrid(p, m, call.now);
    TakingStaysOnGrid(LevelOf(p, m, call.now), p.rate);
    BurstIsOnGrid(p.burst, p.rate);
    if call.Cancel? && call.i < |m.log| {
      GivingStaysOnGrid(LevelOf(p, m, call.now), p.rate);
      NegatedRefill(p.rate, m.lastEvent - m.log[call.i].due);
      RefillStaysOnGrid(LevelOf(p, m, call.now) + TOKEN, p.rate, m.log[call.i].due - m.lastEvent);
    }
  }

  lemma NegatedRefill(rate: int, x: int)
    ensures Refill(rate, -x) == -Refill(rate, x)
  {
    RefillAdds(rate, x, -x);
  }

  lemma {:induction false} PlayKeepsGrid(p: Rules, start: Time, calls: seq<Call>)
    requires RulesOk(p)
    ensures Gridded(p, Play(p, Fresh(p, start), calls))
    decreases |calls|
  {
    hide Gridded, After;
    if calls == [] {
      hide OnGrid;
      BurstIsOnGrid(p.burst, p.rate);
      FreshOnGrid(p, start);
    } else {
      var front := calls[..|calls| - 1];
      PlayKeepsGrid(p, start, front);
      CallKeepsGrid(p, Play(p, Fresh(p, start), front), calls[|calls| - 1]);
    }
  }

  lemma FreshOnGrid(p: Rules, start: Time)
    requires RulesOk(p)
    ensures Gridded(p, Fresh(p, start))
  {
    BurstIsOnGrid(p.burst, p.rate);
  }

  // ---- The bound ------------------------------------------------------------------------

  function Max(a: int, b: int): int {
    if a < b then b else a
  }

  lemma {:induction false} TakenSince(p: Rules, start: Time, calls: seq<Call>, i: nat)
    requires p.rate > 0 && (forall k | 0 <= k < |calls| :: start <= calls[k].now)
    requires i < |Play(p, Fresh(p, start), calls).log|
    ensures start <= Play(p, Fresh(p, start), calls).log[i].taken
    decreases |calls|
  {
    hide LevelOf, GivenBack;
    var front, call := calls[..|calls| - 1], calls[|calls| - 1];
    if i < |Play(p, Fresh(p, start), front).log| {
      TakenSince(p, start, front, i);
    }
  }

  /** What one bucket admits in a window, in terms of when the last one was taken. */
  lemma EraBound(p: Rules, e: Era, g: int, from: Time, to: Time) returns (i: nat)
    requires RulesOk(p) && EraOk(p, e, g) && g >= 0 && GrantsIn(p, e, from, to) > 0
    ensures i < |LogOf(p, e)| && GrantedWithin(LogOf(p, e)[i], from, to)
    ensures
      var last := LogOf(p, e)[i];
      && last.due <= last.taken + g && last.due <= to && Max(e.start, from - g) <= last.due
      && GrantsIn(p, e, from, to) * TOKEN
           <= p.burst * TOKEN + MaxShortfall(p.rate) + Refill(p.rate, last.due - Max(e.start, from - g))
  {
    hide *;
    var m := EraMeter(p, e, g);
    var a;
    a, i := GrantsBetween(p, m, e.end, from, to);
    WithinEra(p, e, m, g, from, to, a);
    WithinEra(p, e, m, g, from, to, i);
    RefillGrows(p.rate, m.log[i].due - m.log[a].taken, m.log[i].due - Max(e.start, from - g));
  }

  lemma EraMeter(p: Rules, e: Era, g: int) returns (m: Meter)
    requires RulesOk(p) && EraOk(p, e, g)
    ensures m == Play(p, Fresh(p, e.start), e.calls) && m.log == LogOf(p, e)
    ensures MeterOk(p, m, e.end) && Gridded(p, m)
    ensures forall from, to :: GrantsIn(p, e, from, to) == Grants(m.log, |m.log|, from, to)
  {
    hide Play, MeterOk, Gridded, Grants;
    m := Play(p, Fresh(p, e.start), e.calls);
    PlayKeepsOk(p, e.calls, e.start, e.end);
    PlayKeepsGrid(p, e.start, e.calls);
  }

  lemma WithinEra(p: Rules, e: Era, m: Meter, g: int, from: Time, to: Time, i: nat)
    requires RulesOk(p) && EraOk(p, e, g) && m == Play(p, Fresh(p, e.start), e.calls) && Gridded(p, m)
    requires i < |m.log| && GrantedWithin(m.log[i], from, to) && EntryOk(p, m.log[i], e.end)
    ensures
      var r := m.log[i];
      && p.rate > 0 && r.due <= r.taken + g && r.due <= to && Max(e.start, from - g) <= r.taken <= r.due
      && r.left + Refill(p.rate, r.due - r.taken) >= -MaxShortfall(p.rate)
  {
    hide Play, OnGrid, Refill, MaxShortfall;
    var r := m.log[i];
    RefillStaysOnGrid(r.left, p.rate, r.due - r.taken);
    ShortByAtMost(r.left + Refill(p.rate, r.due - r.taken), p.rate);
    TakenSince(p, e.start, e.calls, i);
  }

  /** A bucket that has been replaced admits no more than what refills from its making, or
      the window's beginning, to the next one's. */
  lemma ReplacedBound(p: Rules, e: Era, next: Era, g: int, idle: int, from: Time, to: Time)
    requires RulesOk(p) && EraOk(p, e, g) && g >= 0 && Renews(p, e, next, idle) && RefillsWhileIdle(p, g, idle)
    ensures GrantsIn(p, e, from, to) * TOKEN + Refill(p.rate, Max(0, e.start - (from - g)))
         <= Refill(p.rate, Max(0, next.start - (from - g)))
  {
    hide Refill, MaxShortfall, EraOk, LogOf;
    var begin, lo := from - g, Max(e.start, from - g);
    if GrantsIn(p, e, from, to) == 0 {
      RefillGrows(p.rate, Max(0, e.start - begin), Max(0, next.start - begin));
    } else {
      var i := EraBound(p, e, g, from, to);
      var due := LogOf(p, e)[i].due;
      RefillAdds(p.rate, idle - g, due - lo);
      RefillGrows(p.rate, idle - g + (due - lo), next.start - lo);
      SomeRefill(p, g, idle);
      RefillAdds(p.rate, next.start - lo, lo - begin);
      assert lo - begin == Max(0, e.start - begin) && (next.start - lo) + (lo - begin) == next.start - begin;
    }
  }

  lemma SomeRefill(p: Rules, g: int, idle: int)
    requires RulesOk(p) && RefillsWhileIdle(p, g, idle)
    ensures idle - g > 0
  {
    hide MaxShortfall;
  }

  lemma {:induction false} ReplacedBounds(p: Rules, eras: seq<Era>, n: nat, g: int, idle: int, from: Time, to: Time)
    requires RulesOk(p) && ErasOk(p, eras, g, idle) && g >= 0 && RefillsWhileIdle(p, g, idle) && n < |eras|
    ensures AllGrants(p, eras, n, from, to) * TOKEN <= Refill(p.rate, Max(0, eras[n].start - (from - g)))
  {
    hide Refill, EraOk, Renews, RefillsWhileIdle, GrantsIn, Max;
    if n == 0 {
      NoLess(p.rate, eras[0].start - (from - g));
    } else {
      ReplacedBounds(p, eras, n - 1, g, idle, from, to);
      ReplacedBound(p, eras[n - 1], eras[n], g, idle, from, to);
    }
  }

  lemma NoLess(rate: int, x: int)
    requires rate > 0
    ensures Refill(rate, Max(0, x)) >= 0
  {
    RefillGrows(rate, 0, Max(0, x));
  }

  lemma {:induction false} RenewalBound(p: Rules, eras: seq<Era>, n: nat, g: int, idle: int, from: Time, to: Time)
    requires RulesOk(p) && ErasOk(p, eras, g, idle) && g >= 0 && RefillsWhileIdle(p, g, idle) && from <= to
    requires n <= |eras|
    ensures AllGrants(p, eras, n, from, to) * TOKEN < p.burst * TOKEN + Refill(p.rate, to - from + g) + p.rate
  {
    hide Refill, EraOk, Renews, RefillsWhileIdle, GrantsIn, MaxShortfall, LogOf;
    if n == 0 {
      RefillGrows(p.rate, 0, to - from + g);
    } else if GrantsIn(p, eras[n - 1], from, to) == 0 {
      RenewalBound(p, eras, n - 1, g, idle, from, to);
    } else {
      var e := eras[n - 1];
      var begin, lo := from - g, Max(e.start, from - g);
      ReplacedBounds(p, eras, n - 1, g, idle, from, to);
      var i := EraBound(p, e, g, from, to);
      RefillGrows(p.rate, LogOf(p, e)[i].due - lo, to - lo);
      RefillAdds(p.rate, lo - begin, to - lo);
      assert lo - begin == Max(0, e.start - begin) && (lo - begin) + (to - lo) == to - from + g;
    }
  }

  // ---- Buckets that are drained as far as they can be -------------------------------------

  /** When the i-th request of a bucket is due: the burst at once, and then one by one. */
  function DueIn(p: Rules, i: nat): int
    requires p.rate > 0
  {
    if i < p.burst then 0 else DueAt(i + 1 - p.burst, p.rate)
  }

  lemma DueInOrder(p: Rules, i: nat, j: nat)
    requires RulesOk(p) && i <= j
    ensures 0 <= DueIn(p, i) <= DueIn(p, j)
  {
    if j >= p.burst {
      DueOrder(if i < p.burst then 0 else i + 1 - p.burst, j + 1 - p.burst, p.rate);
    }
  }

  /** It is reserved when it is due, but no later than at z. */
  function TakenIn(p: Rules, z: int, i: nat): int
    requires p.rate > 0
  {
    Min(DueIn(p, i), z)
  }

  function Entry(p: Rules, s: Time, z: int, i: nat, granted: bool): Reservation
    requires p.rate > 0
  {
    var due, taken := DueIn(p, i), TakenIn(p, z, i);
    Reservation(s + taken, s + due, p.burst * TOKEN + Refill(p.rate, taken) - (i + 1) * TOKEN,
                if granted then Granted(s + due) else Waiting)
  }

  /** n of them have been reserved and k admitted. */
  function Drained(p: Rules, s: Time, z: int, n: nat, k: nat): seq<Reservation>
    requires p.rate > 0
  {
    seq(n, i requires 0 <= i < n => Entry(p, s, z, i, i < k))
  }

  ghost predicate DrainedTo(p: Rules, m: Meter, s: Time, z: int, n: nat, k: nat)
    requires p.rate > 0
  {
    && m.log == Drained(p, s, z, n, k)
    && m.last == (if n == 0 then s else s + TakenIn(p, z, n - 1))
    && m.tokens == p.burst * TOKEN + Refill(p.rate, m.last - s) - n * TOKEN
  }

  ghost predicate Reaches(p: Rules, s: Time, z: int, now: Time, n: nat, k: nat)
    requires p.rate > 0
  {
    exists calls :: InTime(calls, s, now) && DrainedTo(p, Play(p, Fresh(p, s), calls), s, z, n, k)
  }

  lemma ReachesLater(p: Rules, s: Time, z: int, now: Time, later: Time, n: nat, k: nat)
    requires p.rate > 0 && Reaches(p, s, z, now, n, k) && now <= later
    ensures Reaches(p, s, z, later, n, k)
  {
    hide Play, DrainedTo;
    var calls :| InTime(calls, s, now) && DrainedTo(p, Play(p, Fresh(p, s), calls), s, z, n, k);
    assert InTime(calls, s, later);
  }

  lemma ReachesByCall(p: Rules, s: Time, z: int, n: nat, k: nat, calls: seq<Call>, call: Call, n': nat, k': nat)
    requires p.rate > 0 && InTime(calls, s, call.now)
    requires DrainedTo(p, After(p, Play(p, Fresh(p, s), calls), call), s, z, n', k')
    ensures Reaches(p, s, z, call.now, n', k')
  {
    hide Play, After, DrainedTo;
    PlayMore(p, Fresh(p, s), calls, call);
    assert InTime(calls + [call], s, call.now);
  }

  /** What is left at x after n reservations, and what one more makes of it. */
  lemma NextDue(p: Rules, z: int, n: nat)
    requires RulesOk(p) && z >= 0
    ensures
      var x := TakenIn(p, z, n);
      var left := p.burst * TOKEN + Refill(p.rate, x) - (n + 1) * TOKEN;
      && x >= 0 && left + TOKEN <= p.burst * TOKEN
      && DueIn(p, n) == x + if left < 0 then -left / p.rate else 0
  {
    DueInOrder(p, n, n);
    var x := TakenIn(p, z, n);
    if n >= p.burst {
      var j := n + 1 - p.burst;
      DueRefills(j, p.rate);
      RefillGrows(p.rate, x, DueAt(j, p.rate));
      var left := Refill(p.rate, x) - j * TOKEN;
      assert left <= 0;
      Quotient(j * TOKEN, p.rate, x);
      assert j <= n;
    }
  }

  lemma TheQuotient(b: int, rate: int, q: int, r: int)
    requires rate > 0 && 0 <= r < rate && b == rate * q + r
    ensures b / rate == q
  {
    var q', r' := b / rate, b % rate;
    assert b == rate * q' + r';
    assert rate * (q' - q) == rate * q' - rate * q;
    SmallMultiple(rate, q' - q);
  }

  lemma Quotient(a: int, rate: int, x: int)
    requires rate > 0
    ensures (a - Refill(rate, x)) / rate == a / rate - x
  {
    var q, r := a / rate, a % rate;
    assert rate * (q - x) == rate * q - rate * x;
    assert Refill(rate, x) == rate * x;
    TheQuotient(a - Refill(rate, x), rate, q - x, r);
  }

  lemma OneMoreEntry(p: Rules, s: Time, z: int, n: nat, k: nat)
    requires p.rate > 0 && k <= n
    ensures Drained(p, s, z, n + 1, k) == Drained(p, s, z, n, k) + [Entry(p, s, z, n, false)]
  {
  }

  lemma OneMoreGranted(p: Rules, s: Time, z: int, n: nat, k: nat)
    requires p.rate > 0 && k < n
    ensures Drained(p, s, z, n, k + 1) == Drained(p, s, z, n, k)[k := Entry(p, s, z, k, true)]
  {
  }

  lemma TakeNext(p: Rules, m: Meter, s: Time, z: int, n: nat, k: nat)
    requires RulesOk(p) && z >= 0 && k <= n && DrainedTo(p, m, s, z, n, k)
    ensures DrainedTo(p, After(p, m, Reserve(s + TakenIn(p, z, n))), s, z, n + 1, k)
  {
    var x := TakenIn(p, z, n);
    NextDue(p, z, n);
    if n > 0 {
      DueInOrder(p, n - 1, n);
    }
    hide DueIn;
    RefillAdds(p.rate, m.last - s, s + x - m.last);
    hide Refill;
    var m' := After(p, m, Reserve(s + x));
    assert LevelOf(p, m, s + x) == p.burst * TOKEN + Refill(p.rate, x) - n * TOKEN;
    assert m'.log[n] == Entry(p, s, z, n, false);
    OneMoreEntry(p, s, z, n, k);
  }

  lemma AdmitNext(p: Rules, m: Meter, s: Time, z: int, n: nat, k: nat)
    requires RulesOk(p) && k < n && DrainedTo(p, m, s, z, n, k)
    ensures DrainedTo(p, After(p, m, Delay(k, s + DueIn(p, k))), s, z, n, k + 1)
  {
    hide DueIn, Refill;
    assert m.log[k] == Entry(p, s, z, k, false);
    OneMoreGranted(p, s, z, n, k);
  }

  lemma Reserved(p: Rules, s: Time, z: int, n: nat, k: nat)
    requires RulesOk(p) && z >= 0 && k <= n && Reaches(p, s, z, s + TakenIn(p, z, n), n, k)
    ensures Reaches(p, s, z, s + TakenIn(p, z, n), n + 1, k)
  {
    hide Play, DrainedTo, After, TakenIn;
    var now := s + TakenIn(p, z, n);
    var calls :| InTime(calls, s, now) && DrainedTo(p, Play(p, Fresh(p, s), calls), s, z, n, k);
    TakeNext(p, Play(p, Fresh(p, s), calls), s, z, n, k);
    ReachesByCall(p, s, z, n, k, calls, Reserve(now), n + 1, k);
  }

  lemma Admitted(p: Rules, s: Time, z: int, n: nat, k: nat)
    requires RulesOk(p) && k < n && Reaches(p, s, z, s + DueIn(p, k), n, k)
    ensures Reaches(p, s, z, s + DueIn(p, k), n, k + 1)
  {
    hide Play, DrainedTo, After, DueIn;
    var now := s + DueIn(p, k);
    var calls :| InTime(calls, s, now) && DrainedTo(p, Play(p, Fresh(p, s), calls), s, z, n, k);
    AdmitNext(p, Play(p, Fresh(p, s), calls), s, z, n, k);
    ReachesByCall(p, s, z, n, k, calls, Delay(k, now), n, k + 1);
  }

  /** Until z each request is admitted when it is due. */
  lemma {:induction false} Prompt(p: Rules, s: Time, z: int, n: nat)
    requires RulesOk(p) && z >= 0 && (n > 0 ==> DueIn(p, n - 1) <= z)
    ensures Reaches(p, s, z, s + if n == 0 then 0 else DueIn(p, n - 1), n, n)
  {
    hide DueIn, Reaches;
    if n == 0 {
      NothingYet(p, s, z);
    } else {
      if n > 1 {
        DueInOrder(p, n - 2, n - 1);
      } else {
        DueInOrder(p, 0, 0);
      }
      Prompt(p, s, z, n - 1);
      ReachesLater(p, s, z, s + if n == 1 then 0 else DueIn(p, n - 2), s + DueIn(p, n - 1), n - 1, n - 1);
      Reserved(p, s, z, n - 1, n - 1);
      Admitted(p, s, z, n, n - 1);
    }
  }

  lemma NothingYet(p: Rules, s: Time, z: int)
    requires p.rate > 0
    ensures Reaches(p, s, z, s, 0, 0)
  {
    assert InTime([], s, s);
    RefillGrows(p.rate, 0, 0);
    assert Drained(p, s, z, 0, 0) == [];
    assert DrainedTo(p, Play(p, Fresh(p, s), []), s, z, 0, 0);
  }

  /** At z all others are reserved. */
  lemma {:induction false} AllReserved(p: Rules, s: Time, z: int, e: nat, n: nat)
    requires RulesOk(p) && z >= 0 && e <= n && Reaches(p, s, z, s + z, e, e) && DueIn(p, e) >= z
    ensures Reaches(p, s, z, s + z, n, e)
  {
    hide DueIn, Reaches;
    if e < n {
      AllReserved(p, s, z, e, n - 1);
      DueInOrder(p, e, n - 1);
      Reserved(p, s, z, n - 1, e);
    }
  }

  lemma {:induction false} AllAdmitted(p: Rules, s: Time, z: int, e: nat, k: nat, n: nat)
    requires RulesOk(p) && e <= k <= n && Reaches(p, s, z, s + z, n, e) && DueIn(p, e) >= z
    ensures Reaches(p, s, z, s + if k == e then z else DueIn(p, k - 1), n, k)
  {
    hide DueIn, Reaches;
    if e < k {
      AllAdmitted(p, s, z, e, k - 1, n);
      DueInOrder(p, if k - 1 == e then e else k - 2, k - 1);
      ReachesLater(p, s, z, s + if k - 1 == e then z else DueIn(p, k - 2), s + DueIn(p, k - 1), n, k - 1);
      Admitted(p, s, z, n, k - 1);
    }
  }

  /** How many are due by z. */
  lemma {:induction false} DueByThen(p: Rules, z: int, n: nat) returns (e: nat)
    requires RulesOk(p) && z >= 0 && n > 0 && z <= DueIn(p, n - 1)
    ensures e < n && (e > 0 ==> DueIn(p, e - 1) <= z) && DueIn(p, e) >= z
  {
    hide DueIn;
    if n > 1 && z <= DueIn(p, n - 2) {
      e := DueByThen(p, z, n - 1);
    } else {
      e := n - 1;
    }
  }

  lemma AllDrained(p: Rules, s: Time, z: int, n: nat)
    requires RulesOk(p) && z >= 0 && n > 0 && z <= DueIn(p, n - 1)
    ensures Reaches(p, s, z, s + DueIn(p, n - 1), n, n)
  {
    hide DueIn, Reaches;
    var e := DueByThen(p, z, n);
    Prompt(p, s, z, e);
    ReachesLater(p, s, z, s + if e == 0 then 0 else DueIn(p, e - 1), s + z, e, e);
    AllReserved(p, s, z, e, n);
    AllAdmitted(p, s, z, e, n, n);
  }

  // ---- Buckets deleted before they are full -------------------------------------------------

  lemma DrainedEntries(p: Rules, s: Time, z: int, n: nat)
    requires RulesOk(p) && 0 < n && 0 <= z <= DueIn(p, n - 1)
    ensures
      var log, due := Drained(p, s, z, n, n), DueIn(p, n - 1);
      && |log| == n && TakenBy(log, s + z) && GapsWithin(log, due - z)
      && forall from, to | from <= s && s + due <= to :: Grants(log, n, from, to) == n
  {
    hide Grants, DueIn;
    var log, due := Drained(p, s, z, n, n), DueIn(p, n - 1);
    forall i | 0 <= i < n
      ensures s <= log[i].taken <= s + z && log[i].status.Granted?
      ensures s <= log[i].status.at <= s + due && log[i].status.at <= log[i].taken + due - z
    {
      DueInOrder(p, i, n - 1);
      assert log[i] == Entry(p, s, z, i, true);
    }
    forall from, to | from <= s && s + due <= to ensures Grants(log, n, from, to) == n {
      AllGranted(log, n, from, to);
    }
  }

  /** A bucket from which the burst and k requests more are admitted, the last one as late
      after its reservation as may be. */
  lemma DrainedEra(p: Rules, g: int, k: nat, s: Time) returns (e: Era)
    requires RulesOk(p) && g >= 0 && k > 0 && DueAt(k, p.rate) >= g
    ensures
      var due := DueAt(k, p.rate);
      && e.start == s && EraOk(p, e, g) && TakenBy(LogOf(p, e), s + due - g)
      && forall from, to | from <= s && s + due <= to :: GrantsIn(p, e, from, to) == p.burst + k
  {
    hide DueAt, Refill, Play, TakenBy, GapsWithin, Grants, Drained;
    var n, due := p.burst + k, DueAt(k, p.rate);
    var z := due - g;
    assert DueIn(p, n - 1) == due;
    AllDrained(p, s, z, n);
    var calls :| InTime(calls, s, s + due) && DrainedTo(p, Play(p, Fresh(p, s), calls), s, z, n, n);
    e := Era(s, calls, s + due);
    assert LogOf(p, e) == Drained(p, s, z, n, n);
    DrainedEntries(p, s, z, n);
  }

  /** In all n lives. */
  function InAll(n: int, x: int): int {
    n * x
  }

  /** n such buckets, each made as soon as the one before has been idle long enough. */
  lemma {:induction false} DrainedEras(p: Rules, g: int, idle: int, k: nat, n: nat) returns (eras: seq<Era>)
    requires RulesOk(p) && g >= 0 && idle >= 0 && k > 0 && DueAt(k, p.rate) >= g
    ensures
      var life := DueAt(k, p.rate) - g + idle;
      && |eras| == n && ErasOk(p, eras, g, idle)
      && (n > 0 ==>
            eras[n - 1].start == InAll(n - 1, life) && TakenBy(LogOf(p, eras[n - 1]), InAll(n, life) - idle))
      && forall to | InAll(n, life) + g <= to :: AllGrants(p, eras, n, 0, to) == InAll(n, p.burst + k)
  {
    hide *;
    Positive(p);
    var life := DueAt(k, p.rate) - g + idle;
    if n == 0 {
      eras := [];
      NoEras(p, g, idle);
    } else {
      var front := DrainedEras(p, g, idle, k, n - 1);
      OneMore(n, life);
      OneMore(n, p.burst + k);
      var e := DrainedEra(p, g, k, InAll(n - 1, life));
      eras := front + [e];
      if n > 1 {
        OneMore(n - 1, life);
        FollowsOn(p, front[n - 2], e, idle);
      }
      ErasMore(p, front, e, g, idle);
      forall to | InAll(n, life) + g <= to ensures AllGrants(p, eras, n, 0, to) == InAll(n, p.burst + k) {
        GrantsMore(p, front, e, 0, to);
      }
    }
  }

  lemma Positive(p: Rules)
    requires RulesOk(p)
    ensures p.burst > 0 && p.rate > 0
  {
  }

  lemma OneMore(n: int, x: int)
    requires n > 0 && x >= 0
    ensures InAll(n, x) == InAll(n - 1, x) + x && InAll(n - 1, x) >= 0
  {
  }

  lemma FollowsOn(p: Rules, e: Era, next: Era, idle: int)
    requires p.rate > 0 && e.start <= next.start && TakenBy(LogOf(p, e), next.start - idle)
    ensures Renews(p, e, next, idle)
  {
  }

  lemma NoEras(p: Rules, g: int, idle: int)
    requires p.rate > 0
    ensures ErasOk(p, [], g, idle) && forall from, to, x :: AllGrants(p, [], 0, from, to) == InAll(0, x)
  {
  }

  lemma ErasMore(p: Rules, front: seq<Era>, e: Era, g: int, idle: int)
    requires p.rate > 0 && ErasOk(p, front, g, idle) && EraOk(p, e, g)
    requires front != [] ==> Renews(p, front[|front| - 1], e, idle)
    ensures ErasOk(p, front + [e], g, idle)
  {
    hide Renews, EraOk;
    var eras := front + [e];
    forall i | 0 < i < |eras| ensures Renews(p, eras[i - 1], eras[i], idle) {
      if i < |front| {
        assert Renews(p, front[i - 1], front[i], idle);
      }
    }
  }

  lemma GrantsMore(p: Rules, front: seq<Era>, e: Era, from: Time, to: Time)
    requires p.rate > 0
    ensures AllGrants(p, front + [e], |front| + 1, from, to)
         == AllGrants(p, front, |front|, from, to) + GrantsIn(p, e, from, to)
  {
    hide GrantsIn;
    PrefixGrants(p, front, e, |front|, from, to);
  }

  lemma {:induction false} PrefixGrants(p: Rules, front: seq<Era>, e: Era, n: nat, from: Time, to: Time)
    requires p.rate > 0 && n <= |front|
    ensures AllGrants(p, front + [e], n, from, to) == AllGrants(p, front, n, from, to)
  {
    hide GrantsIn;
    if n > 0 {
      PrefixGrants(p, front, e, n - 1, from, to);
    }
  }

  /** The bound, with what refills in g, of every window of all the buckets of a key. */
  ghost predicate KeepsBound(p: Rules, g: int, idle: int)
    requires p.rate > 0
  {
    forall eras, from, to | ErasOk(p, eras, g, idle) && from <= to ::
      AllGrants(p, eras, |eras|, from, to) * TOKEN < p.burst * TOKEN + Refill(p.rate, to - from + g) + p.rate
  }

  /** In one life more is admitted than refills. */
  lemma LifeGains(p: Rules, g: int, idle: int, k: nat)
    requires RulesOk(p) && !RefillsWhileIdle(p, g, idle) && Residue(k, p.rate) == MaxShortfall(p.rate)
    ensures (p.burst + k) * TOKEN >= Refill(p.rate, DueAt(k, p.rate) - g + idle) + 1
  {
    DueRefills(k, p.rate);
    hide DueAt, Refill, Residue, MaxShortfall;
    RefillAdds(p.rate, DueAt(k, p.rate), idle - g);
    assert DueAt(k, p.rate) + (idle - g) == DueAt(k, p.rate) - g + idle;
  }

  lemma EarlyRenewalExceeds(p: Rules, g: int, idle: int) returns (eras: seq<Era>, to: Time)
    requires RulesOk(p) && g >= 0 && idle >= 0 && !RefillsWhileIdle(p, g, idle)
    ensures ErasOk(p, eras, g, idle) && to >= 0
    ensures AllGrants(p, eras, |eras|, 0, to) * TOKEN >= p.burst * TOKEN + Refill(p.rate, to + g) + p.rate
  {
    hide ErasOk, AllGrants, Refill, DueAt, MaxShortfall, Residue, RefillsWhileIdle;
    var k := MaxIsReached(p.rate, p.rate * (g + 1) + 1);
    LateEnough(k, p.rate, g);
    var life := DueAt(k, p.rate) - g + idle;
    RefillGrows(p.rate, 0, 2 * g);
    var n := p.burst * TOKEN + Refill(p.rate, 2 * g) + p.rate;
    eras := DrainedEras(p, g, idle, k, n);
    to := n * life + g;
    LifeGains(p, g, idle, k);
    ManyTimes(p.rate, n, life, (p.burst + k) * TOKEN, 0);
    RefillAdds(p.rate, n * life, 2 * g);
    assert n * life + 2 * g == to + g;
    assert (n * (p.burst + k)) * TOKEN == n * ((p.burst + k) * TOKEN);
  }

  /** The exact condition for requests that overlap in any way, and buckets that are deleted
      when nothing has been reserved from them for some time. */
  lemma BoundExactlyWhenRefills(p: Rules, g: int, idle: int)
    requires RulesOk(p) && g >= 0 && idle >= 0
    ensures KeepsBound(p, g, idle) <==> RefillsWhileIdle(p, g, idle)
  {
    hide Refill, AllGrants, ErasOk, RefillsWhileIdle;
    if RefillsWhileIdle(p, g, idle) {
      forall eras, from, to | ErasOk(p, eras, g, idle) && from <= to
        ensures AllGrants(p, eras, |eras|, from, to) * TOKEN < p.burst * TOKEN + Refill(p.rate, to - from + g) + p.rate
      {
        RenewalBound(p, eras, |eras|, g, idle, from, to);
      }
    } else {
      var eras, to := EarlyRenewalExceeds(p, g, idle);
      assert to - 0 + g == to + g;
    }
  }

  /** The bound without that time and without rounding. */
  ghost predicate KeepsExactBound(p: Rules, g: int, idle: int)
    requires p.rate > 0
  {
    forall eras, from, to | ErasOk(p, eras, g, idle) && from <= to ::
      AllGrants(p, eras, |eras|, from, to) * TOKEN <= p.burst * TOKEN + Refill(p.rate, to - from)
  }

  /** A whole burst is held for this time and one request more comes as soon as it can. */
  lemma HeldEraExceeds(p: Rules, g: int, idle: int, at: Time)
    requires RulesOk(p) && 0 <= at <= 1 && at <= g && (at == 1 || TOKEN % p.rate != 0)
    ensures !KeepsExactBound(p, g, idle)
  {
    hide KeepsExactBound, HeldBurst, Play, Grants, InTime;
    var u := TOKEN / p.rate;
    var eras := [Era(0, HeldBurst(p, at), u)];
    HeldBurstExceeds(p, at);
    WholeToken(p.rate);
    RefillAdds(p.rate, u - at, at);
    RefillGrows(p.rate, 0, 1);
    assert Refill(p.rate, u) + TOKEN % p.rate == TOKEN;
    hide Refill;
    OneEra(p, eras, at, u);
    Exceeded(p, g, idle, eras, at, u);
  }

  lemma OneEra(p: Rules, eras: seq<Era>, from: Time, to: Time)
    requires p.rate > 0 && |eras| == 1
    ensures AllGrants(p, eras, 1, from, to) == GrantsIn(p, eras[0], from, to)
  {
    hide GrantsIn;
    assert AllGrants(p, eras, 0, from, to) == 0;
  }

  lemma Exceeded(p: Rules, g: int, idle: int, eras: seq<Era>, from: Time, to: Time)
    requires p.rate > 0 && ErasOk(p, eras, g, idle) && from <= to
    requires AllGrants(p, eras, |eras|, from, to) * TOKEN > p.burst * TOKEN + Refill(p.rate, to - from)
    ensures !KeepsExactBound(p, g, idle)
  {
    hide ErasOk, AllGrants, Refill;
  }

  lemma KeptExactly(p: Rules, idle: int)
    requires RulesOk(p) && RefillsWhileIdle(p, 0, idle) && TOKEN % p.rate == 0
    ensures KeepsExactBound(p, 0, idle)
  {
    hide ErasOk, AllGrants, Refill, RefillsWhileIdle;
    forall eras, from, to | ErasOk(p, eras, 0, idle) && from <= to
      ensures AllGrants(p, eras, |eras|, from, to) * TOKEN <= p.burst * TOKEN + Refill(p.rate, to - from)
    {
      RenewalBound(p, eras, |eras|, 0, idle, from, to);
      assert to - from + 0 == to - from;
      AmongMultiples(p, AllGrants(p, eras, |eras|, from, to), to - from);
    }
  }

  /** The exact bound holds if and only if every request is answered at one instant, the
      rate divides a token, and an empty bucket is full again when it may first be
      deleted. */
  lemma ExactBoundExactlyWhen(p: Rules, g: int, idle: int)
    requires RulesOk(p) && g >= 0 && idle >= 0
    ensures KeepsExactBound(p, g, idle)
       <==> g == 0 && TOKEN % p.rate == 0 && p.burst * TOKEN <= Refill(p.rate, idle)
  {
    ZeroExactlyWhenDividing(p.rate);
    hide KeepsExactBound, Refill, MaxShortfall;
    if g > 0 {
      HeldEraExceeds(p, g, idle, 1);
    } else if TOKEN % p.rate != 0 {
      HeldEraExceeds(p, g, idle, 0);
    } else if p.burst * TOKEN <= Refill(p.rate, idle) {
      KeptExactly(p, idle);
    } else {
      var eras, to := EarlyRenewalExceeds(p, 0, idle);
      hide AllGrants, ErasOk;
      assert to + 0 == to - 0;
      Exceeded(p, 0, idle, eras, 0, to);
    }
  }

  /** The defaults, with requests that draw within g of reading the clock, so that nothing
      has been drawn for idleTTL - 2g from what the janitor deletes, and that ask for their
      delay within `held` of drawing: five minutes in all are safe, but no more than a
      nanosecond at one request a minute. */
  lemma DefaultsKeepBoundWhen(rate: int, g: int, held: int)
    requires 0 < rate <= TOKEN && 0 <= g && 0 <= held && 2 * g <= 10 * TOKEN
    ensures
      var c := WithDefaults(0, 0);
      var keeps := KeepsBound(Rules(c.burst, rate), held, c.idleTTL + 1 - 2 * g);
      (rate > 1 && 2 * g + held <= 300 * SECOND ==> keeps) && (rate == 1 ==> (keeps <==> 2 * g + held <= 1))
  {
    var c := WithDefaults(0, 0);
    var p, idle := Rules(c.burst, rate), c.idleTTL + 1 - 2 * g;
    DefaultsRefillWithin(rate, 2 * g + held);
    hide KeepsBound, MaxShortfall, Refill;
    assert idle - held == c.idleTTL + 1 - (2 * g + held);
    assert RefillsWhileIdle(p, held, idle) <==> c.burst * TOKEN + MaxShortfall(rate) <= Refill(rate, idle - held);
    hide RefillsWhileIdle;
    BoundExactlyWhenRefills(p, held, idle);
  }
}
