/** The three calls a request makes on its bucket, each with its own reading of the clock
    and with calls of other requests in between: Reserve takes a token and says when it is
    due, Delay admits the request if that time has come, and Cancel gives the token back.
    The bucket is that of golang.org/x/time/rate, which is not part of this repository. */
module Reservations {
  import opened TokenBucket

  /** Burst, and tokens a minute. */
  datatype Rules = Rules(burst: int, rate: int)

  datatype Status = Waiting | Granted(at: Time) | Refused | Withdrawn

  /** A reservation, with the tokens that were left when it was made. */
  datatype Reservation = Reservation(taken: Time, due: Time, left: int, status: Status)

  /** The bucket, the time its latest reservation is due, and all reservations so far. */
  datatype Meter = Meter(tokens: int, last: Time, lastEvent: Time, log: seq<Reservation>)

  datatype Call = Reserve(now: Time) | Delay(i: nat, now: Time) | Cancel(i: nat, now: Time)

  predicate RulesOk(p: Rules) {
    p.burst > 0 && 0 < p.rate <= TOKEN
  }

  function Fresh(p: Rules, now: Time): Meter {
    Meter(p.burst * TOKEN, now, now, [])
  }

  // ---- Calls --------------------------------------------------------------------------

  function LevelOf(p: Rules, m: Meter, now: Time): int {
    Min(p.burst * TOKEN, m.tokens + Refill(p.rate, if now > m.last then now - m.last else 0))
  }

  function Taken(p: Rules, m: Meter, now: Time): Meter
    requires p.rate > 0
  {
    var left := LevelOf(p, m, now) - TOKEN;
    var due := now + if left < 0 then -left / p.rate else 0;
    Meter(left, now, due, m.log + [Reservation(now, due, left, Waiting)])
  }

  function Decided(m: Meter, i: nat, now: Time): Meter
    requires i < |m.log|
  {
    m.(log := m.log[i := m.log[i].(status := if now >= m.log[i].due then Granted(now) else Refused)])
  }

  /** What Cancel gives back: nothing once the due time has passed, and otherwise the token
      less what later reservations have spoken for. */
  function GivenBack(p: Rules, m: Meter, r: Reservation, now: Time): int {
    if r.due < now || TOKEN <= Refill(p.rate, m.lastEvent - r.due) then 0
    else TOKEN - Refill(p.rate, m.lastEvent - r.due)
  }

  function Cancelling(p: Rules, m: Meter, i: nat, now: Time): Meter
    requires p.rate > 0 && i < |m.log|
  {
    var r := m.log[i];
    var log := m.log[i := r.(status := Withdrawn)];
    var back := GivenBack(p, m, r, now);
    if back == 0 then m.(log := log)
    else
      var previous := r.due - TOKEN / p.rate;
      Meter(Min(p.burst * TOKEN, LevelOf(p, m, now) + back), now,
            if r.due == m.lastEvent && previous >= now then previous else m.lastEvent, log)
  }

  /** A call is made once: Delay on a reservation that waits, Cancel on one that was denied. */
  function After(p: Rules, m: Meter, call: Call): Meter
    requires p.rate > 0
  {
    match call
    case Reserve(now) => Taken(p, m, now)
    case Delay(i, now) => if i < |m.log| && m.log[i].status.Waiting? then Decided(m, i, now) else m
    case Cancel(i, now) => if i < |m.log| && m.log[i].status.Refused? then Cancelling(p, m, i, now) else m
  }

  function Play(p: Rules, m: Meter, calls: seq<Call>): Meter
    requires p.rate > 0
  {
    if calls == [] then m else After(p, Play(p, m, calls[..|calls| - 1]), calls[|calls| - 1])
  }

  // ---- Counting reservations -----------------------------------------------------------

  /** Cancelling it would still give something back. */
  predicate Restorable(r: Reservation, now: Time) {
    (r.status.Refused? && r.due >= now) || (r.status.Waiting? && r.due > now)
  }

  function One(b: bool): nat {
    if b then 1 else 0
  }

  function Open(log: seq<Reservation>, lo: nat, hi: nat, now: Time): nat
    requires hi <= |log|
  {
    if hi <= lo then 0 else Open(log, lo, hi - 1, now) + One(Restorable(log[hi - 1], now))
  }

  function Live(log: seq<Reservation>, lo: nat, hi: nat): nat
    requires hi <= |log|
  {
    if hi <= lo then 0 else Live(log, lo, hi - 1) + One(!log[hi - 1].status.Withdrawn?)
  }

  lemma {:induction false} OpenUpdate(log: seq<Reservation>, i: nat, r: Reservation, lo: nat, hi: nat, now: Time)
    requires i < |log| && hi <= |log|
    ensures Open(log[i := r], lo, hi, now) + (if lo <= i < hi then One(Restorable(log[i], now)) else 0)
         == Open(log, lo, hi, now) + (if lo <= i < hi then One(Restorable(r, now)) else 0)
    decreases hi
  {
    if lo < hi {
      OpenUpdate(log, i, r, lo, hi - 1, now);
    }
  }

  lemma {:induction false} LiveUpdate(log: seq<Reservation>, i: nat, r: Reservation, lo: nat, hi: nat)
    requires i < |log| && hi <= |log|
    ensures Live(log[i := r], lo, hi) + (if lo <= i < hi then One(!log[i].status.Withdrawn?) else 0)
         == Live(log, lo, hi) + (if lo <= i < hi then One(!r.status.Withdrawn?) else 0)
    decreases hi
  {
    if lo < hi {
      LiveUpdate(log, i, r, lo, hi - 1);
    }
  }

  lemma {:induction false} OpenSplits(log: seq<Reservation>, lo: nat, mid: nat, hi: nat, now: Time)
    requires lo <= mid <= hi <= |log|
    ensures Open(log, lo, hi, now) == Open(log, lo, mid, now) + Open(log, mid, hi, now)
    decreases hi
  {
    if mid < hi {
      OpenSplits(log, lo, mid, hi - 1, now);
    }
  }

  lemma {:induction false} PrefixCounts(log: seq<Reservation>, r: Reservation, lo: nat, hi: nat, now: Time)
    requires hi <= |log|
    ensures Open(log + [r], lo, hi, now) == Open(log, lo, hi, now) && Live(log + [r], lo, hi) == Live(log, lo, hi)
    decreases hi
  {
    if lo < hi {
      PrefixCounts(log, r, lo, hi - 1, now);
    }
  }

  lemma {:induction false} FewerOpenLater(log: seq<Reservation>, lo: nat, hi: nat, now: Time, later: Time)
    requires hi <= |log| && now <= later
    ensures Open(log, lo, hi, later) <= Open(log, lo, hi, now)
    decreases hi
  {
    if lo < hi {
      FewerOpenLater(log, lo, hi - 1, now, later);
    }
  }

  // ---- What every call keeps --------------------------------------------------------------

  /** The due time is when the tokens left would be back at zero, rounded down. */
  ghost predicate EntryOk(p: Rules, r: Reservation, now: Time) {
    && r.taken <= now && r.taken <= r.due
    && r.left + Refill(p.rate, r.due - r.taken) > -p.rate
    && (r.taken < r.due ==> r.left + Refill(p.rate, r.due - r.taken) <= 0)
    && (r.status.Granted? ==> r.due <= r.status.at <= now)
    && (r.status.Refused? ==> r.taken < r.due)
  }

  /** While a reservation can be given back the level is below zero until it is due, even if
      all later ones are given back. */
  ghost predicate Owed(p: Rules, m: Meter, now: Time, i: nat)
    requires i < |m.log|
  {
    Restorable(m.log[i], now) ==>
      && m.log[i].due <= m.lastEvent
      && LevelOf(p, m, now) + TOKEN * Open(m.log, i + 1, |m.log|, now) <= -Refill(p.rate, m.log[i].due - now)
  }

  /** Due times are a token's refill apart. */
  ghost predicate Apart(p: Rules, m: Meter, now: Time, i: nat, j: nat)
    requires p.rate > 0 && i < |m.log| && j < |m.log|
  {
    i < j && Restorable(m.log[i], now) && Restorable(m.log[j], now) ==>
      m.log[i].due + TOKEN / p.rate <= m.log[j].due
  }

  /** What has been taken since a reservation and not cancelled, with what earlier ones may
      still give back, comes out of a burst and the refill. */
  ghost predicate Budgeted(p: Rules, m: Meter, now: Time, a: nat)
    requires a < |m.log|
  {
    LevelOf(p, m, now) + TOKEN * (Live(m.log, a, |m.log|) + Open(m.log, 0, a, now))
      <= p.burst * TOKEN + Refill(p.rate, now - m.log[a].taken)
  }

  /** The same as of the time reservation i was made. */
  ghost predicate Backed(p: Rules, log: seq<Reservation>, a: nat, i: nat)
    requires i < |log| && a < |log|
  {
    a <= i && !log[i].status.Withdrawn? ==>
      TOKEN * Live(log, a, i + 1) <= p.burst * TOKEN + Refill(p.rate, log[i].taken - log[a].taken) - log[i].left
  }

  ghost predicate MeterOk(p: Rules, m: Meter, now: Time) {
    && RulesOk(p) && m.last <= now && m.tokens <= p.burst * TOKEN
    && (forall i: nat | i < |m.log| :: EntryOk(p, m.log[i], now))
    && (forall i: nat, j: nat | i <= j < |m.log| :: m.log[i].taken <= m.log[j].taken)
    && (forall i: nat | i < |m.log| :: Owed(p, m, now, i))
    && (forall i: nat, j: nat | i < |m.log| && j < |m.log| :: Apart(p, m, now, i, j))
    && (forall a: nat | a < |m.log| :: Budgeted(p, m, now, a))
    && (forall a: nat, i: nat | a < |m.log| && i < |m.log| :: Backed(p, m.log, a, i))
    && (m.log != [] && Restorable(m.log[|m.log| - 1], now) ==> m.log[|m.log| - 1].due == m.lastEvent)
  }

  lemma LevelRises(p: Rules, m: Meter, now: Time, later: Time)
    requires p.rate > 0 && m.last <= now <= later
    ensures LevelOf(p, m, later) <= LevelOf(p, m, now) + Refill(p.rate, later - now)
    ensures LevelOf(p, m, now) <= p.burst * TOKEN
  {
    hide Refill;
    RefillAdds(p.rate, now - m.last, later - now);
    RefillGrows(p.rate, 0, now - m.last);
    RefillGrows(p.rate, 0, later - now);
  }

  lemma Sooner(rate: int, due: Time, now: Time, later: Time)
    ensures Refill(rate, due - now) == Refill(rate, due - later) + Refill(rate, later - now)
  {
    RefillAdds(rate, due - later, later - now);
    assert (due - later) + (later - now) == due - now;
  }

  lemma OkLater(p: Rules, m: Meter, now: Time, later: Time)
    requires MeterOk(p, m, now) && now <= later
    ensures MeterOk(p, m, later)
  {
    hide Refill, LevelOf;
    var n := |m.log|;
    LevelRises(p, m, now, later);
    forall i: nat | i < n ensures EntryOk(p, m.log[i], later) {
      assert EntryOk(p, m.log[i], now);
    }
    forall i: nat | i < n ensures Owed(p, m, later, i) {
      assert Owed(p, m, now, i);
      FewerOpenLater(m.log, i + 1, n, now, later);
      Sooner(p.rate, m.log[i].due, now, later);
    }
    forall i: nat, j: nat | i < n && j < n ensures Apart(p, m, later, i, j) {
      assert Apart(p, m, now, i, j);
    }
    forall a: nat | a < n ensures Budgeted(p, m, later, a) {
      assert Budgeted(p, m, now, a);
      FewerOpenLater(m.log, 0, a, now, later);
      Sooner(p.rate, later, m.log[a].taken, now);
    }
  }

  /** Everything that can still be given back fits into the bucket. */
  lemma {:induction false} RoomForAll(p: Rules, m: Meter, now: Time, i: nat)
    requires MeterOk(p, m, now) && i <= |m.log| && Open(m.log, 0, i, now) == 0
    ensures LevelOf(p, m, now) + TOKEN * Open(m.log, 0, |m.log|, now) <= p.burst * TOKEN
    decreases |m.log| - i
  {
    hide Refill, LevelOf;
    var n := |m.log|;
    if i == n {
      LevelRises(p, m, now, now);
    } else if Restorable(m.log[i], now) {
      assert Owed(p, m, now, i);
      OpenSplits(m.log, 0, i + 1, n, now);
      RefillGrows(p.rate, 0, m.log[i].due - now);
    } else {
      RoomForAll(p, m, now, i + 1);
    }
  }

  // ---- Delay ------------------------------------------------------------------------------

  lemma SameCounts(log: seq<Reservation>, i: nat, r: Reservation, lo: nat, hi: nat, now: Time)
    requires i < |log| && hi <= |log| && Restorable(r, now) == Restorable(log[i], now)
    requires r.status.Withdrawn? == log[i].status.Withdrawn?
    ensures Open(log[i := r], lo, hi, now) == Open(log, lo, hi, now) && Live(log[i := r], lo, hi) == Live(log, lo, hi)
  {
    OpenUpdate(log, i, r, lo, hi, now);
    LiveUpdate(log, i, r, lo, hi);
  }

  lemma DecidedOk(p: Rules, m: Meter, i: nat, now: Time)
    requires MeterOk(p, m, now) && i < |m.log| && m.log[i].status.Waiting?
    ensures MeterOk(p, Decided(m, i, now), now)
  {
    hide Refill, LevelOf, Open, Live;
    var m', n := Decided(m, i, now), |m.log|;
    var r := m'.log[i];
    assert EntryOk(p, m.log[i], now);
    SameLevel(p, m, m', now);
    forall k: nat | k < n ensures EntryOk(p, m'.log[k], now) {
      assert EntryOk(p, m.log[k], now);
    }
    forall k: nat | k < n ensures Owed(p, m', now, k) && Budgeted(p, m', now, k) {
      assert Owed(p, m, now, k) && Budgeted(p, m, now, k);
      SameCounts(m.log, i, r, k + 1, n, now);
      SameCounts(m.log, i, r, k, n, now);
      SameCounts(m.log, i, r, 0, k, now);
    }
    forall a: nat, k: nat | a < n && k < n ensures Apart(p, m', now, a, k) && Backed(p, m'.log, a, k) {
      assert Apart(p, m, now, a, k) && Backed(p, m.log, a, k);
      SameCounts(m.log, i, r, a, k + 1, now);
    }
  }

  lemma SameLevel(p: Rules, m: Meter, m': Meter, now: Time)
    requires m'.tokens == m.tokens && m'.last == m.last
    ensures LevelOf(p, m', now) == LevelOf(p, m, now)
  {
  }

  // ---- Reserve ----------------------------------------------------------------------------

  lemma LevelAtLast(p: Rules, m: Meter, now: Time)
    requires m.tokens <= p.burst * TOKEN && m.last == now
    ensures LevelOf(p, m, now) == m.tokens
  {
  }

  /** The entry that Reserve makes. */
  lemma TakenEntry(p: Rules, m: Meter, now: Time)
    requires RulesOk(p)
    ensures
      var r := Taken(p, m, now).log[|m.log|];
      && EntryOk(p, r, now) && r.taken == now && r.left == LevelOf(p, m, now) - TOKEN && r.status.Waiting?
      && r.due == Taken(p, m, now).lastEvent && -r.left < Refill(p.rate, r.due - now + 1)
  {
    var left := LevelOf(p, m, now) - TOKEN;
    hide LevelOf;
    RefillGrows(p.rate, 0, 1);
    if left < 0 {
      DelayRoundsDown(-left, p.rate);
      RefillAdds(p.rate, -left / p.rate, 1);
    }
  }

  /** It is due a token's refill after every reservation that can be given back. */
  lemma DueAfter(p: Rules, m: Meter, now: Time, i: nat)
    requires MeterOk(p, m, now) && i < |m.log| && Restorable(m.log[i], now)
    ensures Taken(p, m, now).lastEvent >= m.log[i].due + TOKEN / p.rate
  {
    hide LevelOf, EntryOk, Budgeted, Backed, Apart;
    TakenEntry(p, m, now);
    var due, q := Taken(p, m, now).lastEvent, TOKEN / p.rate;
    assert Owed(p, m, now, i);
    WholeToken(p.rate);
    hide Refill;
    RefillAdds(p.rate, m.log[i].due - now, q);
    if due - now + 1 <= m.log[i].due - now + q {
      RefillGrows(p.rate, due - now + 1, m.log[i].due - now + q);
    }
  }

  lemma WholeToken(rate: int)
    requires 0 < rate <= TOKEN
    ensures Refill(rate, TOKEN / rate) <= TOKEN < Refill(rate, TOKEN / rate + 1) && TOKEN / rate >= 1
  {
    DelayRoundsDown(TOKEN, rate);
  }

  lemma TakenOk(p: Rules, m: Meter, now: Time)
    requires MeterOk(p, m, now)
    ensures MeterOk(p, Taken(p, m, now), now)
  {
    hide LevelOf, Refill, Open, Live, Restorable;
    var m', n := Taken(p, m, now), |m.log|;
    var r := m'.log[n];
    TakenEntry(p, m, now);
    LevelRises(p, m, now, now);
    LevelAtLast(p, m', now);
    forall k: nat | k <= n ensures EntryOk(p, m'.log[k], now) {
      assert k < n ==> EntryOk(p, m.log[k], now);
    }
    forall k: nat | k <= n ensures Owed(p, m', now, k) {
      OwedAfterTaking(p, m, now, k);
    }
    forall k: nat, j: nat | k <= n && j <= n ensures Apart(p, m', now, k, j) {
      if k < n && j < n {
        assert Apart(p, m, now, k, j);
      } else if k < n && Restorable(m.log[k], now) {
        DueAfter(p, m, now, k);
      }
    }
    forall a: nat | a <= n ensures Budgeted(p, m', now, a) {
      BudgetAfterTaking(p, m, now, a);
    }
    forall a: nat, k: nat | a <= n && k <= n ensures Backed(p, m'.log, a, k) {
      BackedAfterTaking(p, m, now, a, k);
    }
  }

  lemma OwedAfterTaking(p: Rules, m: Meter, now: Time, k: nat)
    requires MeterOk(p, m, now) && k <= |m.log|
    ensures Owed(p, Taken(p, m, now), now, k)
  {
    hide LevelOf, Refill, Live, Restorable, Budgeted, Backed, Apart;
    var m', n := Taken(p, m, now), |m.log|;
    var r := m'.log[n];
    TakenEntry(p, m, now);
    LevelRises(p, m, now, now);
    LevelAtLast(p, m', now);
    WaitsToBeOpen(r, now);
    if k < n && Restorable(m.log[k], now) {
      assert Owed(p, m, now, k);
      PrefixCounts(m.log, r, k + 1, n, now);
      DueAfter(p, m, now, k);
      WholeToken(p.rate);
    }
  }

  lemma WaitsToBeOpen(r: Reservation, now: Time)
    requires r.status.Waiting?
    ensures Restorable(r, now) <==> r.due > now
  {
  }

  lemma BudgetAfterTaking(p: Rules, m: Meter, now: Time, a: nat)
    requires MeterOk(p, m, now) && a <= |m.log|
    ensures Budgeted(p, Taken(p, m, now), now, a)
  {
    hide LevelOf, Refill, Restorable, Owed, Backed, Apart;
    var m', n := Taken(p, m, now), |m.log|;
    TakenEntry(p, m, now);
    LevelRises(p, m, now, now);
    LevelAtLast(p, m', now);
    PrefixCounts(m.log, m'.log[n], a, n, now);
    PrefixCounts(m.log, m'.log[n], 0, a, now);
    if a < n {
      assert Budgeted(p, m, now, a);
    } else {
      RoomForAll(p, m, now, 0);
      RefillGrows(p.rate, 0, 0);
    }
  }

  lemma BackedAfterTaking(p: Rules, m: Meter, now: Time, a: nat, k: nat)
    requires MeterOk(p, m, now) && a <= |m.log| && k <= |m.log|
    ensures Backed(p, Taken(p, m, now).log, a, k)
  {
    hide LevelOf, Refill, Restorable, Owed, Apart, Open;
    var m', n := Taken(p, m, now), |m.log|;
    TakenEntry(p, m, now);
    LevelRises(p, m, now, now);
    LevelAtLast(p, m', now);
    if k < n && a < n {
      assert Backed(p, m.log, a, k);
      PrefixCounts(m.log, m'.log[n], a, k + 1, now);
    } else if k == n {
      BudgetAfterTaking(p, m, now, a);
    }
  }

  // ---- Cancel -----------------------------------------------------------------------------

  /** How Cancel moves the level: up by at most what it gives back. */
  lemma CancelRaises(p: Rules, m: Meter, i: nat, now: Time)
    requires MeterOk(p, m, now) && i < |m.log|
    ensures
      var m', back := Cancelling(p, m, i, now), GivenBack(p, m, m.log[i], now);
      && m'.last <= now && m'.tokens <= p.burst * TOKEN && back >= 0
      && LevelOf(p, m', now) == Min(p.burst * TOKEN, LevelOf(p, m, now) + back)
  {
    var m' := Cancelling(p, m, i, now);
    hide Refill, Restorable, Owed, Backed, Apart, Budgeted, EntryOk, Open, Live;
    LevelRises(p, m, now, now);
    if GivenBack(p, m, m.log[i], now) == 0 {
      SameLevel(p, m, m', now);
    } else {
      LevelAtLast(p, m', now);
    }
  }

  /** Only an open reservation gives anything back, and never more than its token. */
  lemma BackIsBounded(p: Rules, m: Meter, i: nat, now: Time)
    requires MeterOk(p, m, now) && i < |m.log| && m.log[i].status.Refused?
    ensures
      var back := GivenBack(p, m, m.log[i], now);
      && 0 <= back <= TOKEN && (back > 0 ==> Restorable(m.log[i], now))
      && (back > 0 ==> back == TOKEN - Refill(p.rate, m.lastEvent - m.log[i].due))
      && (back == TOKEN <==> now <= m.log[i].due == m.lastEvent)
  {
    hide Refill, LevelOf, Open, Live;
    assert Owed(p, m, now, i);
    if Restorable(m.log[i], now) {
      RefillGrows(p.rate, 0, m.lastEvent - m.log[i].due);
      if m.lastEvent > m.log[i].due {
        RefillGrows(p.rate, 1, m.lastEvent - m.log[i].due);
      }
    }
  }

  lemma StillBelow(p: Rules, m: Meter, i: nat, now: Time, k: nat)
    requires MeterOk(p, m, now) && i < |m.log| && m.log[i].status.Refused? && k < |m.log| && k != i
    requires Restorable(m.log[k], now)
    ensures
      var m' := Cancelling(p, m, i, now);
      LevelOf(p, m', now) + TOKEN * Open(m'.log, k + 1, |m.log|, now) <= -Refill(p.rate, m.log[k].due - now)
  {
    hide Refill, LevelOf, Live, Restorable, Backed, Budgeted, EntryOk, Apart, GivenBack, Open;
    var m', n := Cancelling(p, m, i, now), |m.log|;
    var back, r := GivenBack(p, m, m.log[i], now), m.log[i].(status := Withdrawn);
    assert m'.log == m.log[i := r];
    assert Owed(p, m, now, k) && Owed(p, m, now, i);
    CancelRaises(p, m, i, now);
    BackIsBounded(p, m, i, now);
    OpenUpdate(m.log, i, r, k + 1, n, now);
    WithdrawnIsShut(r, now);
    if i < k && back > 0 {
      OpenSplits(m.log, i + 1, k, n, now);
      OneMoreOpen(m.log, k, n, now);
      Sooner(p.rate, m.lastEvent, now, m.log[i].due);
      RefillGrows(p.rate, m.log[k].due - now, m.lastEvent - now);
    }
  }

  lemma OneMoreOpen(log: seq<Reservation>, k: nat, n: nat, now: Time)
    requires k < n <= |log| && Restorable(log[k], now)
    ensures Open(log, k, n, now) == 1 + Open(log, k + 1, n, now)
  {
    OpenSplits(log, k, k + 1, n, now);
    assert Open(log, k, k, now) == 0;
  }

  lemma WithdrawnIsShut(r: Reservation, now: Time)
    requires r.status.Withdrawn?
    ensures !Restorable(r, now)
  {
  }

  /** The latest due time stays no earlier than that of any open reservation. */
  lemma EventStaysLatest(p: Rules, m: Meter, i: nat, now: Time, k: nat)
    requires MeterOk(p, m, now) && i < |m.log| && k < |m.log| && k != i
    requires Restorable(m.log[k], now) && m.log[i].status.Refused?
    ensures m.log[k].due <= Cancelling(p, m, i, now).lastEvent
    ensures k == |m.log| - 1 ==> Cancelling(p, m, i, now).lastEvent == m.log[k].due
  {
    hide Refill, LevelOf, Live, Open, Backed, Budgeted, EntryOk;
    BackIsBounded(p, m, i, now);
    WholeToken(p.rate);
    assert Owed(p, m, now, k) && Apart(p, m, now, i, k) && Apart(p, m, now, k, i);
  }

  lemma CancellingOk(p: Rules, m: Meter, i: nat, now: Time)
    requires MeterOk(p, m, now) && i < |m.log| && m.log[i].status.Refused?
    ensures MeterOk(p, Cancelling(p, m, i, now), now)
  {
    hide Refill, LevelOf, Live, Open, GivenBack;
    var m', n := Cancelling(p, m, i, now), |m.log|;
    var r := m.log[i].(status := Withdrawn);
    assert m'.log == m.log[i := r];
    CancelRaises(p, m, i, now);
    forall k: nat | k < n ensures EntryOk(p, m'.log[k], now) {
      assert EntryOk(p, m.log[k], now);
    }
    forall k: nat | k < n ensures Owed(p, m', now, k) {
      if k != i && Restorable(m.log[k], now) {
        StillBelow(p, m, i, now, k);
        EventStaysLatest(p, m, i, now, k);
      }
    }
    forall a: nat, k: nat | a < n && k < n ensures Apart(p, m', now, a, k) && Backed(p, m'.log, a, k) {
      assert Apart(p, m, now, a, k) && Backed(p, m.log, a, k);
      LiveUpdate(m.log, i, r, a, k + 1);
    }
    forall a: nat | a < n ensures Budgeted(p, m', now, a) {
      BudgetAfterCancelling(p, m, i, now, a);
    }
    if Restorable(m'.log[n - 1], now) {
      EventStaysLatest(p, m, i, now, n - 1);
    }
  }

  lemma BudgetAfterCancelling(p: Rules, m: Meter, i: nat, now: Time, a: nat)
    requires MeterOk(p, m, now) && i < |m.log| && m.log[i].status.Refused? && a < |m.log|
    ensures Budgeted(p, Cancelling(p, m, i, now), now, a)
  {
    hide Refill, LevelOf, Live, Open, GivenBack, Restorable, Owed, Backed, Apart, EntryOk;
    var m', n := Cancelling(p, m, i, now), |m.log|;
    var r := m.log[i].(status := Withdrawn);
    assert m'.log == m.log[i := r];
    assert Budgeted(p, m, now, a);
    CancelRaises(p, m, i, now);
    BackIsBounded(p, m, i, now);
    WithdrawnIsShut(r, now);
    LiveUpdate(m.log, i, r, a, n);
    OpenUpdate(m.log, i, r, 0, a, now);
  }

  // ---- Runs -------------------------------------------------------------------------------

  ghost predicate InTime(calls: seq<Call>, from: Time, to: Time) {
    && from <= to
    && (forall i | 0 <= i < |calls| :: from <= calls[i].now <= to)
    && (forall i, j | 0 <= i <= j < |calls| :: calls[i].now <= calls[j].now)
  }

  lemma FreshIsOk(p: Rules, now: Time)
    requires RulesOk(p)
    ensures MeterOk(p, Fresh(p, now), now)
  {
  }

  lemma CallKeepsOk(p: Rules, m: Meter, call: Call)
    requires MeterOk(p, m, call.now)
    ensures MeterOk(p, After(p, m, call), call.now)
  {
    hide MeterOk, Taken, Decided, Cancelling;
    RulesHold(p, m, call.now);
    match call
    case Reserve(now) => TakenOk(p, m, now);
    case Delay(i, now) =>
      if i < |m.log| && m.log[i].status.Waiting? {
        DecidedOk(p, m, i, now);
      }
    case Cancel(i, now) =>
      if i < |m.log| && m.log[i].status.Refused? {
        CancellingOk(p, m, i, now);
      }
  }

  lemma RulesHold(p: Rules, m: Meter, now: Time)
    requires MeterOk(p, m, now)
    ensures RulesOk(p)
  {
  }

  /** However the calls of any number of requests overlap. */
  lemma {:induction false} PlayKeepsOk(p: Rules, calls: seq<Call>, from: Time, to: Time)
    requires RulesOk(p) && InTime(calls, from, to)
    ensures MeterOk(p, Play(p, Fresh(p, from), calls), to)
    decreases |calls|
  {
    hide MeterOk, After, Fresh;
    if calls == [] {
      FreshIsOk(p, from);
      OkLater(p, Fresh(p, from), from, to);
    } else {
      var front, call := calls[..|calls| - 1], calls[|calls| - 1];
      PlayKeepsOk(p, front, from, call.now);
      CallKeepsOk(p, Play(p, Fresh(p, from), front), call);
      OkLater(p, Play(p, Fresh(p, from), calls), call.now, to);
    }
  }
}
