/** The exact condition of the rate bound of LimiterRaces. Where a bucket may be deleted
    before it is full, a run without a stray that exceeds the bound: again and again a
    bucket is drained to the emptiest it can be, by requests that draw as late as they may,
    while one request that was slow to enter the lock stamps it with an old time. */
module LimiterThreshold {
  import opened Outcomes
  import opened Shortfall
  import opened TokenBucket
  import opened LimiterRaces
  import opened LimiterStrays

  /** A way to drain buckets: the burst and k requests more, none slower than g. */
  datatype Drain = Drain(c: Config, rate: int, g: int, k: nat)

  ghost predicate DrainOk(d: Drain) {
    && d.c.burst > 0 && d.c.idleTTL > 0 && 0 < d.rate <= TOKEN && d.g >= 0
    && Residue(d.k, d.rate) == MaxShortfall(d.rate) && DueAt(d.k, d.rate) >= 2 * d.g
  }

  lemma DueGrows(d: Drain, j: nat)
    requires 0 < d.rate <= TOKEN
    ensures DueAt(j, d.rate) < DueAt(j + 1, d.rate)
  {
    DueRefills(j, d.rate);
    DueRefills(j + 1, d.rate);
    hide DueAt, Refill, Residue;
    if DueAt(j, d.rate) >= DueAt(j + 1, d.rate) {
      RefillGrows(d.rate, DueAt(j + 1, d.rate), DueAt(j, d.rate));
    }
  }

  /** How many of the first n requests are due by this time. */
  function DueBy(d: Drain, n: nat, elapsed: int): (j: nat)
    requires 0 < d.rate <= TOKEN && elapsed >= 0
    ensures j <= n && DueAt(j, d.rate) <= elapsed && (j < n ==> elapsed < DueAt(j + 1, d.rate))
  {
    if n == 0 then
      assert DueAt(0, d.rate) == 0;
      0
    else if DueAt(n, d.rate) <= elapsed then n
    else DueBy(d, n - 1, elapsed)
  }

  // ---- Pieces of a run ----------------------------------------------------------------

  /** The steps lead from one world to the other in this time, admit n requests for the key
      without a stray, and none of them is slow. */
  ghost predicate Leg(d: Drain, w: World, steps: seq<Step>, w': World, n: int, from: Time, to: Time) {
    && RunSteps(d.c, w, steps) == w'
    && Admissions(d.c, w, steps, "") == n && Strays(d.c, w, steps, "") == 0
    && PromptRun(d.c, w, steps, d.g) && StepsWithin(steps, from, to) && LooksAtRate(steps, "", d.rate)
  }

  lemma TimesJoin(a: seq<Step>, b: seq<Step>, rate: int, from: Time, mid: Time, to: Time)
    requires StepsWithin(a, from, mid) && StepsWithin(b, mid, to)
    requires LooksAtRate(a, "", rate) && LooksAtRate(b, "", rate)
    ensures StepsWithin(a + b, from, to) && LooksAtRate(a + b, "", rate)
  {
  }

  lemma Join(d: Drain, w: World, a: seq<Step>, w1: World, n: int, from: Time, mid: Time,
             b: seq<Step>, w2: World, m: int, to: Time)
    requires Leg(d, w, a, w1, n, from, mid) && Leg(d, w1, b, w2, m, mid, to)
    ensures Leg(d, w, a + b, w2, n + m, from, to)
  {
    hide RunSteps, Admissions, Strays, PromptRun, StepsWithin, LooksAtRate;
    Concatenated(d.c, w, a, b, "", d.g);
    TimesJoin(a, b, d.rate, from, mid, to);
  }

  lemma NoLeg(d: Drain, w: World, from: Time, to: Time)
    requires from <= to
    ensures Leg(d, w, [], w, 0, from, to)
  {
  }

  lemma StepLeg(d: Drain, w: World, s: Step)
    requires d.rate > 0 && PromptStep(w, s, d.g) && StraysHere(d.c, w, s, "") == 0
    requires s.Lookup? ==> s.rpm == d.rate
    ensures Leg(d, w, [s], After(d.c, w, s), AdmitsHere(d.c, w, s, ""), s.now, s.now)
  {
    Nothing(d.c, w, "", d.g);
    OneStep(d.c, w, [], s, "", d.g);
    hide After, AdmitsHere, StraysHere, PromptStep, RunSteps, Admissions, Strays, PromptRun;
    assert [] + [s] == [s];
  }

  // ---- The bucket being drained ----------------------------------------------------------

  /** The time that the key's bucket was last seen, if it has one. */
  function Stamp(w: World): Time {
    if "" in View(w) then View(w)[""].lastSeen else 0
  }

  /** The key has this bucket, and this level at this time. */
  ghost predicate Running(d: Drain, w: World, id: BucketId, now: Time, level: int) {
    && WorldOk(d.c, w, now) && SameRate(w, "", d.rate) && Usable(w, "", d.rate) && w.current[""] == id
    && LevelFor(d.c, w, "", d.rate, now) == level
  }

  lemma Wait(d: Drain, w: World, id: BucketId, now: Time, later: Time, level: int)
    requires d.rate > 0 && Running(d, w, id, now, level) && now <= later
    requires level + Refill(d.rate, later - now) <= d.c.burst * TOKEN
    ensures Running(d, w, id, later, level + Refill(d.rate, later - now))
  {
    hide WorldOk, LevelFor, SameRate, Usable, Refill;
    LevelForGrows(d.c, w, "", d.rate, now, later);
    WorldOkLater(d.c, w, now, later);
  }

  /** One request, at one instant, that is short by less than a nanosecond's refill. */
  lemma RequestLeg(d: Drain, w: World, id: BucketId, now: Time, level: int)
    requires d.c.burst > 0 && d.rate > 0 && d.g >= 0 && Running(d, w, id, now, level)
    requires 0 !in w.flights && level - TOKEN > -d.rate
    ensures
      var steps := Uninterrupted(0, id, "", d.rate, now);
      var w' := RunSteps(d.c, w, steps);
      && Leg(d, w, steps, w', 1, now, now) && Running(d, w', id, now, level - TOKEN)
      && w'.flights == w.flights && w'.cells.Keys == w.cells.Keys + {id}
  {
    var steps := Uninterrupted(0, id, "", d.rate, now);
    assert StepsWithin(steps, now, now) && LooksAtRate(steps, "", d.rate);
    hide RunSteps, Admissions, Strays, PromptRun, WorldOk, SameRate, Usable, LevelFor;
    OneIsAdmitted(d.c, w, 0, id, "", d.rate, now, d.g);
  }

  /** The requests after the a-th, up to the b-th, each at one instant when it is due; the
      burst was at s. */
  function Spaced(d: Drain, id: BucketId, s: Time, a: nat, b: nat): seq<Step>
    requires d.rate > 0
  {
    if b <= a then [] else Spaced(d, id, s, a, b - 1) + Uninterrupted(0, id, "", d.rate, s + DueAt(b, d.rate))
  }

  /** The level when the burst and j requests have been drawn. */
  function LevelAt(d: Drain, elapsed: int, j: nat): int {
    Refill(d.rate, elapsed) - j * TOKEN
  }

  lemma WaitUntil(d: Drain, w: World, id: BucketId, s: Time, x: int, y: int, j: nat)
    requires d.rate > 0 && Running(d, w, id, s + x, LevelAt(d, x, j)) && x <= y
    requires LevelAt(d, y, j) <= d.c.burst * TOKEN
    ensures Running(d, w, id, s + y, LevelAt(d, y, j))
  {
    hide Running, Refill;
    RefillAdds(d.rate, x, y - x);
    assert x + (y - x) == y && (s + y) - (s + x) == y - x;
    Wait(d, w, id, s + x, s + y, LevelAt(d, x, j));
  }

  /** Just before the next request is due there is a token, but for the residue. */
  lemma LevelWhenDue(d: Drain, j: nat)
    requires d.rate > 0 && d.c.burst > 0
    ensures LevelAt(d, DueAt(j + 1, d.rate), j) == TOKEN - Residue(j + 1, d.rate)
    ensures TOKEN - d.rate < LevelAt(d, DueAt(j + 1, d.rate), j) <= TOKEN <= d.c.burst * TOKEN
    ensures LevelAt(d, DueAt(j + 1, d.rate), j) - TOKEN == LevelAt(d, DueAt(j + 1, d.rate), j + 1)
  {
    DueRefills(j + 1, d.rate);
    hide DueAt, Refill, Residue;
  }

  function Latest(d: Drain, x: int, a: nat, b: nat): int
    requires d.rate > 0
  {
    if b <= a then x else DueAt(b, d.rate)
  }

  lemma {:induction false} SpacedLeg(d: Drain, w: World, id: BucketId, s: Time, x: int, a: nat, b: nat)
    requires DrainOk(d) && a <= b && (a < b ==> x <= DueAt(a + 1, d.rate)) && 0 !in w.flights && id in w.cells
    requires Running(d, w, id, s + x, LevelAt(d, x, a))
    ensures
      var w', y := RunSteps(d.c, w, Spaced(d, id, s, a, b)), Latest(d, x, a, b);
      && Leg(d, w, Spaced(d, id, s, a, b), w', b - a, s + x, s + y) && Running(d, w', id, s + y, LevelAt(d, y, b))
      && w'.flights == w.flights && w'.cells.Keys == w.cells.Keys && x <= y
    decreases b
  {
    hide Leg, Running, DueAt, LevelAt, Residue, RunSteps, Uninterrupted;
    if a == b {
      NoLeg(d, w, s + x, s + x);
      LegEnds(d, w, [], w, 0, s + x, s + x);
    } else {
      var front, last := Spaced(d, id, s, a, b - 1), Uninterrupted(0, id, "", d.rate, s + DueAt(b, d.rate));
      var w1, y := RunSteps(d.c, w, front), Latest(d, x, a, b - 1);
      if a < b - 1 { DueGrows(d, b - 1); }
      SpacedLeg(d, w, id, s, x, a, b - 1);
      LevelWhenDue(d, b - 1);
      WaitUntil(d, w1, id, s, y, DueAt(b, d.rate), b - 1);
      RequestLeg(d, w1, id, s + DueAt(b, d.rate), LevelAt(d, DueAt(b, d.rate), b - 1));
      LegLater(d, w, front, w1, b - 1 - a, s + x, s + y, s + DueAt(b, d.rate));
      var w2 := RunSteps(d.c, w1, last);
      Join(d, w, front, w1, b - 1 - a, s + x, s + DueAt(b, d.rate), last, w2, 1, s + DueAt(b, d.rate));
      LegEnds(d, w, front + last, w2, b - a, s + x, s + DueAt(b, d.rate));
    }
  }

  lemma DrainHas(d: Drain)
    requires DrainOk(d)
    ensures d.c.burst > 0 && 0 < d.rate <= TOKEN && d.g >= 0
  {
  }

  /** The spaced requests, and then nothing until a time at which the bucket is not full. */
  lemma SpacedTo(d: Drain, w: World, id: BucketId, s: Time, x: int, a: nat, b: nat, z: int)
    requires DrainOk(d) && a <= b && (a < b ==> x <= DueAt(a + 1, d.rate)) && 0 !in w.flights && id in w.cells
    requires Running(d, w, id, s + x, LevelAt(d, x, a))
    requires Latest(d, x, a, b) <= z && LevelAt(d, z, b) <= d.c.burst * TOKEN
    ensures
      var w' := RunSteps(d.c, w, Spaced(d, id, s, a, b));
      && Leg(d, w, Spaced(d, id, s, a, b), w', b - a, s + x, s + z) && Running(d, w', id, s + z, LevelAt(d, z, b))
      && w'.flights == w.flights && w'.cells.Keys == w.cells.Keys
  {
    hide *;
    DrainHas(d);
    SpacedLeg(d, w, id, s, x, a, b);
    var w', y := RunSteps(d.c, w, Spaced(d, id, s, a, b)), Latest(d, x, a, b);
    WaitUntil(d, w', id, s, y, z, b);
    LegLater(d, w, Spaced(d, id, s, a, b), w', b - a, s + x, s + y, s + z);
  }

  lemma LegEnds(d: Drain, w: World, steps: seq<Step>, w': World, n: int, from: Time, to: Time)
    requires Leg(d, w, steps, w', n, from, to)
    ensures RunSteps(d.c, w, steps) == w' && from <= to
  {
  }

  lemma LegLater(d: Drain, w: World, steps: seq<Step>, w': World, n: int, from: Time, to: Time, later: Time)
    requires Leg(d, w, steps, w', n, from, to) && to <= later
    ensures Leg(d, w, steps, w', n, from, later)
  {
  }

  // ---- Requests that hold the bucket and wait ----------------------------------------------

  /** Requests 2 + j, for j after a up to b, that read the clock at this time. */
  function Holders(d: Drain, id: BucketId, seen: Time, a: nat, b: nat): map<RequestId, Flight> {
    if b <= a then map[] else Holders(d, id, seen, a, b - 1)[2 + b := Holding("", d.rate, seen, id)]
  }

  lemma {:induction false} HoldersAre(d: Drain, id: BucketId, seen: Time, a: nat, b: nat)
    ensures forall r: RequestId :: r in Holders(d, id, seen, a, b) <==> 2 + a < r <= 2 + b
    ensures forall r | r in Holders(d, id, seen, a, b) :: Holders(d, id, seen, a, b)[r] == Holding("", d.rate, seen, id)
  {
    if a < b {
      HoldersAre(d, id, seen, a, b - 1);
    }
  }

  lemma FirstHolderLeaves(d: Drain, id: BucketId, seen: Time, a: nat, b: nat)
    requires a < b
    ensures Holders(d, id, seen, a, b) - {3 + a} == Holders(d, id, seen, a + 1, b)
  {
    HoldersAre(d, id, seen, a, b);
    HoldersAre(d, id, seen, a + 1, b);
  }

  function EnterOne(d: Drain, id: BucketId, r: RequestId, now: Time): seq<Step> {
    [Lookup(r, "", d.rate, now)] + [Enter(r, id, now)]
  }

  function EnterAll(d: Drain, id: BucketId, now: Time, a: nat, b: nat): seq<Step> {
    if b <= a then [] else EnterAll(d, id, now, a, b - 1) + EnterOne(d, id, 2 + b, now)
  }

  lemma LookupLeg(d: Drain, w: World, id: BucketId, r: RequestId, now: Time, level: int)
    requires d.c.burst > 0 && d.rate > 0 && Running(d, w, id, now, level) && r !in w.flights
    ensures
      var s := Lookup(r, "", d.rate, now);
      var w' := After(d.c, w, s);
      && Leg(d, w, [s], w', 0, now, now) && Running(d, w', id, now, level)
      && w' == w.(flights := w.flights[r := Looked("", d.rate, now, Some(id))])
  {
    var s := Lookup(r, "", d.rate, now);
    StepLeg(d, w, s);
    StepKeepsWorld(d.c, w, s);
    StepKeepsRate(d.c, w, s, "", d.rate);
    assert View(After(d.c, w, s)) == View(w);
  }

  /** Entering stamps the bucket with the time that was read. */
  lemma EnterLeg(d: Drain, w: World, id: BucketId, r: RequestId, now: Time, level: int, seen: Time)
    requires d.c.burst > 0 && d.rate > 0 && Running(d, w, id, now, level) && r in w.flights
    requires w.flights[r] == Looked("", d.rate, seen, Some(id)) && now <= seen + d.g
    ensures
      var s := Enter(r, id, now);
      var w' := After(d.c, w, s);
      && Leg(d, w, [s], w', 0, now, now) && Running(d, w', id, now, level) && Stamp(w') == seen
      && w'.flights == w.flights[r := Holding("", d.rate, seen, id)] && w'.cells.Keys == w.cells.Keys
  {
    var s := Enter(r, id, now);
    StepLeg(d, w, s);
    StepKeepsWorld(d.c, w, s);
    StepKeepsRate(d.c, w, s, "", d.rate);
    EnterLeavesLevel(d.c, w, s, "", d.rate);
    assert FlightOk(w, w.flights[r], now);
    assert After(d.c, w, s) == Touch(w, r, id);
    hide Level, LevelFor;
  }

  lemma EnterOneLeg(d: Drain, w: World, id: BucketId, r: RequestId, now: Time, level: int)
    requires d.c.burst > 0 && d.rate > 0 && d.g >= 0 && Running(d, w, id, now, level) && r !in w.flights
    ensures
      var w' := RunSteps(d.c, w, EnterOne(d, id, r, now));
      && Leg(d, w, EnterOne(d, id, r, now), w', 0, now, now) && Running(d, w', id, now, level)
      && w'.flights == w.flights[r := Holding("", d.rate, now, id)] && w'.cells.Keys == w.cells.Keys
  {
    hide Leg, Running, RunSteps, View;
    LookupLeg(d, w, id, r, now, level);
    var w1 := After(d.c, w, Lookup(r, "", d.rate, now));
    assert w1.flights[r] == Looked("", d.rate, now, Some(id));
    hide After;
    EnterLeg(d, w1, id, r, now, level, now);
    var w2 := After(d.c, w1, Enter(r, id, now));
    Join(d, w, [Lookup(r, "", d.rate, now)], w1, 0, now, now, [Enter(r, id, now)], w2, 0, now);
    LegEnds(d, w, EnterOne(d, id, r, now), w2, 0, now, now);
    assert w.flights[r := w1.flights[r]][r := w2.flights[r]] == w.flights[r := w2.flights[r]];
  }

  lemma {:induction false} EnterAllLeg(d: Drain, w: World, id: BucketId, now: Time, level: int, a: nat, b: nat,
                                       other: map<RequestId, Flight>)
    requires d.c.burst > 0 && d.rate > 0 && d.g >= 0 && Running(d, w, id, now, level) && a <= b
    requires w.flights == other && forall r | r in other :: r < 2
    ensures
      var w' := RunSteps(d.c, w, EnterAll(d, id, now, a, b));
      && Leg(d, w, EnterAll(d, id, now, a, b), w', 0, now, now) && Running(d, w', id, now, level)
      && w'.flights == other + Holders(d, id, now, a, b) && w'.cells.Keys == w.cells.Keys
    decreases b
  {
    hide Leg, Running, RunSteps, EnterOne;
    HoldersAre(d, id, now, a, b);
    if a == b {
      NoLeg(d, w, now, now);
      LegEnds(d, w, [], w, 0, now, now);
    } else {
      var front, last := EnterAll(d, id, now, a, b - 1), EnterOne(d, id, 2 + b, now);
      var w1 := RunSteps(d.c, w, front);
      EnterAllLeg(d, w, id, now, level, a, b - 1, other);
      HoldersAre(d, id, now, a, b - 1);
      EnterOneLeg(d, w1, id, 2 + b, now, level);
      Join(d, w, front, w1, 0, now, now, last, RunSteps(d.c, w1, last), 0, now);
      LegEnds(d, w, front + last, RunSteps(d.c, w1, last), 0, now, now);
      assert (other + Holders(d, id, now, a, b - 1))[2 + b := Holding("", d.rate, now, id)]
          == other + Holders(d, id, now, a, b);
    }
  }

  /** A draw from the key's bucket is admitted when it is short by less than a
      nanosecond's refill, and is otherwise free. */
  lemma DrawLeg(d: Drain, w: World, id: BucketId, r: RequestId, now: Time, level: int)
    requires d.c.burst > 0 && d.rate > 0 && Running(d, w, id, now, level)
    requires r in w.flights && w.flights[r].Holding? && w.flights[r].key == "" && w.flights[r].id == id
    requires now <= w.flights[r].seen + d.g
    ensures
      var s, n := Draw(r, now), if level - TOKEN > -d.rate then 1 else 0;
      var w' := After(d.c, w, s);
      && Leg(d, w, [s], w', n, now, now) && Running(d, w', id, now, level - n * TOKEN)
      && Stamp(w') == Stamp(w)
      && w'.flights == w.flights - {r} && w'.cells.Keys == w.cells.Keys
  {
    var s := Draw(r, now);
    assert FlightOk(w, w.flights[r], now) && CanDraw(w, r);
    assert CellOk(d.c, Held(w, r), now) && View(w)[""] == Held(w, r);
    hide AfterReserve, Answer;
    DrawsFromItsBucket(d.c, w, r, now);
    DrawKeepsCell(d.c, Held(w, r), now);
    AllowedExactly(d.c, Held(w, r), now);
    DrawTakes(d.c, w, s, "", d.rate);
    StepLeg(d, w, s);
    StepKeepsWorld(d.c, w, s);
    StepKeepsRate(d.c, w, s, "", d.rate);
  }

  lemma AllowedExactly(c: Config, b: Bucket, now: Time)
    requires b.rpm > 0
    ensures Answer(c, b, now).Allowed? <==> Level(c, b, now) - TOKEN > -b.rpm
  {
    hide Refill;
    if Level(c, b, now) < TOKEN {
      DelayRoundsDown(TOKEN - Level(c, b, now), b.rpm);
    }
  }

  function DrawAll(d: Drain, s: Time, a: nat, b: nat): seq<Step>
    requires d.rate > 0
    decreases b - a
  {
    if b <= a then [] else [Draw(3 + a, s + DueAt(a + 1, d.rate))] + DrawAll(d, s, a + 1, b)
  }

  /** The waiting requests draw when they are due; the stamp stays. */
  lemma {:induction false} DrawAllLeg(d: Drain, w: World, id: BucketId, s: Time, x: int, seen: Time, a: nat, b: nat)
    requires DrainOk(d) && a <= b && (a < b ==> x <= DueAt(a + 1, d.rate) && s + DueAt(b, d.rate) <= seen + d.g)
    requires Running(d, w, id, s + x, LevelAt(d, x, a)) && w.flights == Holders(d, id, seen, a, b)
    ensures
      var w', y := RunSteps(d.c, w, DrawAll(d, s, a, b)), Latest(d, x, a, b);
      && Leg(d, w, DrawAll(d, s, a, b), w', b - a, s + x, s + y) && Running(d, w', id, s + y, LevelAt(d, y, b))
      && Stamp(w') == Stamp(w)
      && w'.flights == map[] && w'.cells.Keys == w.cells.Keys && x <= y
    decreases b - a
  {
    hide Leg, Running, DueAt, LevelAt, Residue, RunSteps, Stamp, View, After;
    if a == b {
      NoLeg(d, w, s + x, s + x);
      LegEnds(d, w, [], w, 0, s + x, s + x);
    } else {
      var y := DueAt(a + 1, d.rate);
      HoldersAre(d, id, seen, a, b);
      DueOrder(a + 1, b, d.rate);
      LevelWhenDue(d, a);
      WaitUntil(d, w, id, s, x, y, a);
      DrawLeg(d, w, id, 3 + a, s + y, LevelAt(d, y, a));
      var first, rest := [Draw(3 + a, s + y)], DrawAll(d, s, a + 1, b);
      var w1 := After(d.c, w, Draw(3 + a, s + y));
      LegEarlier(d, w, first, w1, 1, s + x, s + y, s + y);
      FirstHolderLeaves(d, id, seen, a, b);
      if a + 1 < b { DueGrows(d, a + 1); }
      DrawAllLeg(d, w1, id, s, y, seen, a + 1, b);
      var w2 := RunSteps(d.c, w1, rest);
      Join(d, w, first, w1, 1, s + x, s + y, rest, w2, b - a - 1, s + Latest(d, y, a + 1, b));
      LegEnds(d, w, first + rest, w2, b - a, s + x, s + Latest(d, x, a, b));
    }
  }

  lemma LegEarlier(d: Drain, w: World, steps: seq<Step>, w': World, n: int, earlier: Time, from: Time, to: Time)
    requires Leg(d, w, steps, w', n, from, to) && earlier <= from
    ensures Leg(d, w, steps, w', n, earlier, to)
  {
  }

  // ---- One bucket's life --------------------------------------------------------------------

  /** When the slow request reads the clock, when it and the waiting ones enter, and how
      many of the k requests are due by then. */
  function SlowReads(d: Drain): int
    requires d.rate > 0
  {
    DueAt(d.k, d.rate) - 2 * d.g
  }

  function SlowEnters(d: Drain): int
    requires d.rate > 0
  {
    DueAt(d.k, d.rate) - d.g
  }

  function Early(d: Drain): nat
    requires 0 < d.rate <= TOKEN && SlowReads(d) >= 0
  {
    DueBy(d, d.k, SlowReads(d))
  }

  function Middle(d: Drain): nat
    requires 0 < d.rate <= TOKEN && SlowEnters(d) >= 0
  {
    DueBy(d, d.k, SlowEnters(d))
  }

  /** After the last draw, or as soon as the stamp is old enough. */
  function Deleted(d: Drain): int
    requires d.rate > 0
  {
    var kept := d.c.idleTTL + 1 - 2 * d.g;
    DueAt(d.k, d.rate) + if kept > 0 then kept else 0
  }

  /** Between two due times there is less than a token. */
  lemma LevelBetween(d: Drain, x: int, j: nat)
    requires DrainOk(d) && j <= d.k && DueAt(j, d.rate) <= x <= DueAt(d.k, d.rate)
    requires j < d.k ==> x < DueAt(j + 1, d.rate)
    ensures LevelAt(d, x, j) <= TOKEN - d.rate < d.c.burst * TOKEN
  {
    DueRefills(j, d.rate);
    DueRefills(j + 1, d.rate);
    hide DueAt, Refill, Residue, MaxShortfall;
    if j < d.k {
      RefillGrows(d.rate, x + 1, DueAt(j + 1, d.rate));
      RefillAdds(d.rate, x, 1);
      RefillGrows(d.rate, 0, 1);
    }
  }

  lemma LatestBy(d: Drain, x: int, a: nat, b: nat, z: int)
    requires d.rate > 0 && x <= z && DueAt(b, d.rate) <= z
    ensures Latest(d, x, a, b) <= z
  {
  }

  lemma Splits(d: Drain)
    requires DrainOk(d)
    ensures d.c.burst > 0 && 0 < d.rate <= TOKEN && d.g >= 0
    ensures 0 <= SlowReads(d) <= SlowEnters(d) <= DueAt(d.k, d.rate) && Early(d) <= Middle(d) <= d.k
    ensures Early(d) < d.k ==> SlowReads(d) <= DueAt(Early(d) + 1, d.rate)
    ensures Middle(d) < d.k ==> SlowEnters(d) <= DueAt(Middle(d) + 1, d.rate)
    ensures Middle(d) == d.k ==> SlowEnters(d) == DueAt(d.k, d.rate)
    ensures LevelAt(d, SlowReads(d), Early(d)) <= d.c.burst * TOKEN
    ensures LevelAt(d, SlowEnters(d), Middle(d)) <= TOKEN - d.rate < d.c.burst * TOKEN
    ensures DueAt(Early(d), d.rate) <= SlowReads(d) && DueAt(Middle(d), d.rate) <= SlowEnters(d)
  {
    hide DueAt, Residue, MaxShortfall, LevelAt;
    if Middle(d) < Early(d) {
      DueOrder(Middle(d) + 1, Early(d), d.rate);
    }
    LevelBetween(d, SlowReads(d), Early(d));
    LevelBetween(d, SlowEnters(d), Middle(d));
  }

  /** Nothing is under way, the key has no bucket, and no bucket has this number yet. */
  ghost predicate Start(d: Drain, w: World, s: Time, id: BucketId) {
    && WorldOk(d.c, w, s) && w.flights == map[] && "" !in w.current && forall x | x in w.cells :: x < id
  }

  lemma BurstLeg(d: Drain, w: World, s: Time, id: BucketId)
    requires DrainOk(d) && Start(d, w, s, id)
    ensures
      var steps := AtOnce(0, id, "", d.rate, d.c.burst, s);
      var w' := RunSteps(d.c, w, steps);
      && Leg(d, w, steps, w', d.c.burst, s, s) && Running(d, w', id, s, LevelAt(d, 0, 0))
      && w'.flights == map[] && w'.cells.Keys == w.cells.Keys + {id}
  {
    var steps := AtOnce(0, id, "", d.rate, d.c.burst, s);
    assert Quiet(d.c, w, 0, id, "", d.rate, s) && !Usable(w, "", d.rate);
    assert StepsWithin(steps, s, s) && LooksAtRate(steps, "", d.rate);
    hide RunSteps, Admissions, Strays, PromptRun, DueAt, Residue, MaxShortfall, AtOnce;
    AllAreAdmitted(d.c, w, 0, id, "", d.rate, d.c.burst, s, d.g);
  }

  lemma EarlyLeg(d: Drain, w: World, s: Time, id: BucketId)
    requires DrainOk(d) && Start(d, w, s, id)
    ensures
      var steps := AtOnce(0, id, "", d.rate, d.c.burst, s) + Spaced(d, id, s, 0, Early(d));
      var w' := RunSteps(d.c, w, steps);
      && Leg(d, w, steps, w', d.c.burst + Early(d), s, s + SlowReads(d))
      && Running(d, w', id, s + SlowReads(d), LevelAt(d, SlowReads(d), Early(d)))
      && w'.flights == map[] && w'.cells.Keys == w.cells.Keys + {id}
  {
    hide *;
    Splits(d);
    BurstLeg(d, w, s, id);
    DueRefills(1, d.rate);
    LatestBy(d, 0, 0, Early(d), SlowReads(d));
    var a, b, x := AtOnce(0, id, "", d.rate, d.c.burst, s), Spaced(d, id, s, 0, Early(d)), SlowReads(d);
    var w1 := RunSteps(d.c, w, a);
    assert s + 0 == s;
    SpacedTo(d, w1, id, s, 0, 0, Early(d), x);
    JoinTo(d, w, a, w1, d.c.burst, s, s, b, Early(d), s + x);
  }

  lemma JoinTo(d: Drain, w: World, a: seq<Step>, w1: World, n: int, from: Time, mid: Time, b: seq<Step>, m: int, to: Time)
    requires Leg(d, w, a, w1, n, from, mid) && Leg(d, w1, b, RunSteps(d.c, w1, b), m, mid, to)
    ensures RunSteps(d.c, w, a + b) == RunSteps(d.c, w1, b) && Leg(d, w, a + b, RunSteps(d.c, w, a + b), n + m, from, to)
  {
    hide RunSteps, Leg;
    Join(d, w, a, w1, n, from, mid, b, RunSteps(d.c, w1, b), m, to);
    LegEnds(d, w, a + b, RunSteps(d.c, w1, b), n + m, from, to);
  }

  lemma MiddleLeg(d: Drain, w: World, s: Time, id: BucketId)
    requires DrainOk(d) && id in w.cells && w.flights == map[]
    requires Running(d, w, id, s + SlowReads(d), LevelAt(d, SlowReads(d), Early(d)))
    ensures
      var steps := [Lookup(1, "", d.rate, s + SlowReads(d))] + Spaced(d, id, s, Early(d), Middle(d));
      var w' := RunSteps(d.c, w, steps);
      && Leg(d, w, steps, w', Middle(d) - Early(d), s + SlowReads(d), s + SlowEnters(d))
      && Running(d, w', id, s + SlowEnters(d), LevelAt(d, SlowEnters(d), Middle(d)))
      && w'.flights == map[1 := Looked("", d.rate, s + SlowReads(d), Some(id))] && w'.cells.Keys == w.cells.Keys
  {
    hide *;
    Splits(d);
    LatestBy(d, SlowReads(d), Early(d), Middle(d), SlowEnters(d));
    var x := SlowReads(d);
    var look, b := Lookup(1, "", d.rate, s + x), Spaced(d, id, s, Early(d), Middle(d));
    LookupLeg(d, w, id, 1, s + x, LevelAt(d, x, Early(d)));
    var w1 := After(d.c, w, look);
    assert map[][1 := Looked("", d.rate, s + x, Some(id))] == map[1 := Looked("", d.rate, s + x, Some(id))];
    SpacedTo(d, w1, id, s, x, Early(d), Middle(d), SlowEnters(d));
    JoinTo(d, w, [look], w1, 0, s + x, s + x, b, Middle(d) - Early(d), s + SlowEnters(d));
  }

  /** The waiting requests enter and then the slow one, which stamps the bucket with its old
      time and is denied. */
  function EnterSteps(d: Drain, s: Time, id: BucketId): seq<Step>
    requires 0 < d.rate <= TOKEN && SlowEnters(d) >= 0
  {
    EnterAll(d, id, s + SlowEnters(d), Middle(d), d.k)
      + ([Enter(1, id, s + SlowEnters(d))] + [Draw(1, s + SlowEnters(d))])
  }

  lemma SlowOneEnters(d: Drain, w: World, s: Time, id: BucketId, others: map<RequestId, Flight>)
    requires DrainOk(d) && 1 !in others
    requires Running(d, w, id, s + SlowEnters(d), LevelAt(d, SlowEnters(d), Middle(d)))
    requires w.flights == others[1 := Looked("", d.rate, s + SlowReads(d), Some(id))]
    ensures
      var now := s + SlowEnters(d);
      var steps := [Enter(1, id, now)] + [Draw(1, now)];
      var w' := RunSteps(d.c, w, steps);
      && Leg(d, w, steps, w', 0, now, now) && Running(d, w', id, now, LevelAt(d, SlowEnters(d), Middle(d)))
      && Stamp(w') == s + SlowReads(d) && w'.flights == others && w'.cells.Keys == w.cells.Keys
  {
    hide *;
    Splits(d);
    SlowTimes(d);
    var now, level, seen := s + SlowEnters(d), LevelAt(d, SlowEnters(d), Middle(d)), s + SlowReads(d);
    EnterLeg(d, w, id, 1, now, level, seen);
    var w1 := After(d.c, w, Enter(1, id, now));
    DrawLeg(d, w1, id, 1, now, level);
    var w2 := After(d.c, w1, Draw(1, now));
    Join(d, w, [Enter(1, id, now)], w1, 0, now, now, [Draw(1, now)], w2, 0, now);
    LegEnds(d, w, [Enter(1, id, now)] + [Draw(1, now)], w2, 0, now, now);
    PutPutDrop(others, Looked("", d.rate, seen, Some(id)), Holding("", d.rate, seen, id));
  }

  lemma PutPutDrop(others: map<RequestId, Flight>, f: Flight, f': Flight)
    requires 1 !in others
    ensures others[1 := f][1 := f'] - {1} == others
  {
  }

  lemma SlowTimes(d: Drain)
    requires d.rate > 0
    ensures SlowEnters(d) == SlowReads(d) + d.g && DueAt(d.k, d.rate) == SlowEnters(d) + d.g
  {
  }

  lemma AloneAndTogether(f: Flight, holders: map<RequestId, Flight>)
    ensures map[1 := f] + holders == (if 1 in holders then map[1 := f] + holders else holders[1 := f])
    ensures forall r | r in map[1 := f] :: r < 2
  {
  }

  lemma EnterStepsLeg(d: Drain, w: World, s: Time, id: BucketId)
    requires DrainOk(d) && w.flights == map[1 := Looked("", d.rate, s + SlowReads(d), Some(id))]
    requires Running(d, w, id, s + SlowEnters(d), LevelAt(d, SlowEnters(d), Middle(d)))
    ensures
      var now := s + SlowEnters(d);
      var w' := RunSteps(d.c, w, EnterSteps(d, s, id));
      && Leg(d, w, EnterSteps(d, s, id), w', 0, now, now)
      && Running(d, w', id, now, LevelAt(d, SlowEnters(d), Middle(d)))
      && Stamp(w') == s + SlowReads(d)
      && w'.flights == Holders(d, id, now, Middle(d), d.k) && w'.cells.Keys == w.cells.Keys
  {
    hide *;
    Splits(d);
    var now, f := s + SlowEnters(d), Looked("", d.rate, s + SlowReads(d), Some(id));
    var holders := Holders(d, id, now, Middle(d), d.k);
    AloneAndTogether(f, holders);
    HoldersAre(d, id, now, Middle(d), d.k);
    EnterAllLeg(d, w, id, now, LevelAt(d, SlowEnters(d), Middle(d)), Middle(d), d.k, map[1 := f]);
    var a, b := EnterAll(d, id, now, Middle(d), d.k), [Enter(1, id, now)] + [Draw(1, now)];
    var w1 := RunSteps(d.c, w, a);
    SlowOneEnters(d, w1, s, id, holders);
    JoinTo(d, w, a, w1, 0, now, now, b, 0, now);
    EnterStepsAre(d, s, id);
  }

  lemma EnterStepsAre(d: Drain, s: Time, id: BucketId)
    requires 0 < d.rate <= TOKEN && SlowEnters(d) >= 0
    ensures EnterSteps(d, s, id) == EnterAll(d, id, s + SlowEnters(d), Middle(d), d.k)
                                      + ([Enter(1, id, s + SlowEnters(d))] + [Draw(1, s + SlowEnters(d))])
  {
  }

  lemma LastDraws(d: Drain, w: World, s: Time, id: BucketId)
    requires DrainOk(d) && w.flights == Holders(d, id, s + SlowEnters(d), Middle(d), d.k)
    requires Running(d, w, id, s + SlowEnters(d), LevelAt(d, SlowEnters(d), Middle(d)))
    requires Stamp(w) == s + SlowReads(d)
    ensures
      var steps := DrawAll(d, s, Middle(d), d.k);
      var w' := RunSteps(d.c, w, steps);
      && Leg(d, w, steps, w', d.k - Middle(d), s + SlowEnters(d), s + DueAt(d.k, d.rate))
      && Running(d, w', id, s + DueAt(d.k, d.rate), LevelAt(d, DueAt(d.k, d.rate), d.k))
      && Stamp(w') == s + SlowReads(d) && w'.flights == map[] && w'.cells.Keys == w.cells.Keys
  {
    hide *;
    Splits(d);
    SlowTimes(d);
    LatestIs(d, SlowEnters(d), Middle(d), d.k);
    DrawAllLeg(d, w, id, s, SlowEnters(d), s + SlowEnters(d), Middle(d), d.k);
  }

  lemma LatestIs(d: Drain, x: int, a: nat, b: nat)
    requires d.rate > 0 && a <= b && (a == b ==> x == DueAt(b, d.rate))
    ensures Latest(d, x, a, b) == DueAt(b, d.rate)
  {
  }

  /** The janitor deletes a bucket whose stamp is old enough, and nothing is left of it. */
  lemma JanitorLeg(d: Drain, w: World, s: Time, id: BucketId)
    requires DrainOk(d) && w.flights == map[]
    requires Running(d, w, id, s + DueAt(d.k, d.rate), LevelAt(d, DueAt(d.k, d.rate), d.k))
    requires Stamp(w) == s + SlowReads(d) && forall x | x in w.cells :: x <= id
    ensures
      var step := Janitor(s + Deleted(d));
      var w' := After(d.c, w, step);
      && Leg(d, w, [step], w', 0, s + DueAt(d.k, d.rate), s + Deleted(d)) && Start(d, w', s + Deleted(d), id + 1)
  {
    var step := Janitor(s + Deleted(d));
    WorldOkLater(d.c, w, s + DueAt(d.k, d.rate), s + Deleted(d));
    StepKeepsWorld(d.c, w, step);
    StepLeg(d, w, step);
    LegEarlier(d, w, [step], After(d.c, w, step), 0, s + DueAt(d.k, d.rate), s + Deleted(d), s + Deleted(d));
    hide Leg, WorldOk, LevelFor, LevelAt, DueAt, Residue, MaxShortfall;
  }

  /** The whole life of a bucket, from one burst to the next. */
  function Life(d: Drain, s: Time, id: BucketId): seq<Step>
    requires 0 < d.rate <= TOKEN && SlowReads(d) >= 0 && SlowEnters(d) >= 0 && d.c.burst > 0
  {
    (AtOnce(0, id, "", d.rate, d.c.burst, s) + Spaced(d, id, s, 0, Early(d)))
      + (([Lookup(1, "", d.rate, s + SlowReads(d))] + Spaced(d, id, s, Early(d), Middle(d)))
           + (EnterSteps(d, s, id) + (DrawAll(d, s, Middle(d), d.k) + [Janitor(s + Deleted(d))])))
  }

  lemma LifeLeg(d: Drain, w: World, s: Time, id: BucketId)
    requires DrainOk(d) && Start(d, w, s, id)
    ensures 0 < d.rate <= TOKEN && SlowReads(d) >= 0 && SlowEnters(d) >= 0 && d.c.burst > 0
    ensures
      var w' := RunSteps(d.c, w, Life(d, s, id));
      && Leg(d, w, Life(d, s, id), w', d.c.burst + d.k, s, s + Deleted(d)) && Start(d, w', s + Deleted(d), id + 1)
  {
    hide *;
    Splits(d);
    var read, enter, last := s + SlowReads(d), s + SlowEnters(d), s + DueAt(d.k, d.rate);
    var a := AtOnce(0, id, "", d.rate, d.c.burst, s) + Spaced(d, id, s, 0, Early(d));
    var b := [Lookup(1, "", d.rate, read)] + Spaced(d, id, s, Early(d), Middle(d));
    var e, f, j := EnterSteps(d, s, id), DrawAll(d, s, Middle(d), d.k), [Janitor(s + Deleted(d))];
    EarlyLeg(d, w, s, id);
    var w1 := RunSteps(d.c, w, a);
    MiddleLeg(d, w1, s, id);
    var w2 := RunSteps(d.c, w1, b);
    EnterStepsLeg(d, w2, s, id);
    var w3 := RunSteps(d.c, w2, e);
    LastDraws(d, w3, s, id);
    var w4 := RunSteps(d.c, w3, f);
    IdsBelow(d, w, w4, s, id);
    JanitorLeg(d, w4, s, id);
    LegEnds(d, w4, j, After(d.c, w4, Janitor(s + Deleted(d))), 0, last, s + Deleted(d));
    JoinTo(d, w3, f, w4, d.k - Middle(d), enter, last, j, 0, s + Deleted(d));
    JoinTo(d, w2, e, w3, 0, enter, enter, f + j, d.k - Middle(d), s + Deleted(d));
    JoinTo(d, w1, b, w2, Middle(d) - Early(d), read, enter, e + (f + j), d.k - Middle(d), s + Deleted(d));
    JoinTo(d, w, a, w1, d.c.burst + Early(d), s, read, b + (e + (f + j)), d.k - Early(d), s + Deleted(d));
    LifeIs(d, s, id);
  }

  lemma LifeIs(d: Drain, s: Time, id: BucketId)
    requires 0 < d.rate <= TOKEN && SlowReads(d) >= 0 && SlowEnters(d) >= 0 && d.c.burst > 0
    ensures
      var a := AtOnce(0, id, "", d.rate, d.c.burst, s) + Spaced(d, id, s, 0, Early(d));
      var b := [Lookup(1, "", d.rate, s + SlowReads(d))] + Spaced(d, id, s, Early(d), Middle(d));
      Life(d, s, id)
      == a + (b + (EnterSteps(d, s, id) + (DrawAll(d, s, Middle(d), d.k) + [Janitor(s + Deleted(d))])))
  {
  }

  lemma IdsBelow(d: Drain, w: World, w': World, s: Time, id: BucketId)
    requires Start(d, w, s, id) && w'.cells.Keys == w.cells.Keys + {id}
    ensures forall x | x in w'.cells :: x <= id
  {
    assert forall x | x in w'.cells :: x in w'.cells.Keys;
  }

  // ---- One life after another --------------------------------------------------------------

  function Lives(d: Drain, n: nat): seq<Step>
    requires 0 < d.rate <= TOKEN && SlowReads(d) >= 0 && SlowEnters(d) >= 0 && d.c.burst > 0
  {
    if n == 0 then [] else Lives(d, n - 1) + Life(d, (n - 1) * Deleted(d), n - 1)
  }

  lemma EmptyStarts(d: Drain)
    ensures Start(d, EMPTY, 0, 0)
  {
  }

  lemma {:induction false} LivesLeg(d: Drain, n: nat)
    requires DrainOk(d)
    ensures 0 < d.rate <= TOKEN && SlowReads(d) >= 0 && SlowEnters(d) >= 0 && d.c.burst > 0
    ensures
      var w := RunSteps(d.c, EMPTY, Lives(d, n));
      && Leg(d, EMPTY, Lives(d, n), w, n * (d.c.burst + d.k), 0, n * Deleted(d)) && Start(d, w, n * Deleted(d), n)
  {
    hide Leg, Start, RunSteps, Life, Deleted, DrainOk, SlowReads, SlowEnters;
    Splits(d);
    if n == 0 {
      EmptyStarts(d);
      NoLeg(d, EMPTY, 0, 0);
      LegEnds(d, EMPTY, [], EMPTY, 0, 0, 0);
    } else {
      LivesLeg(d, n - 1);
      var front, s := Lives(d, n - 1), (n - 1) * Deleted(d);
      var w := RunSteps(d.c, EMPTY, front);
      LifeLeg(d, w, s, n - 1);
      OneMore(n, Deleted(d));
      OneMore(n, d.c.burst + d.k);
      JoinTo(d, EMPTY, front, w, (n - 1) * (d.c.burst + d.k), 0, s, Life(d, s, n - 1), d.c.burst + d.k, s + Deleted(d));
    }
  }

  lemma OneMore(n: int, x: int)
    ensures n * x == (n - 1) * x + x
  {
  }

  function Exceeding(d: Drain, n: nat): seq<Step>
    requires 0 < d.rate <= TOKEN && SlowReads(d) >= 0 && SlowEnters(d) >= 0 && d.c.burst > 0
  {
    Lives(d, n) + AtOnce(0, n, "", d.rate, d.c.burst, n * Deleted(d))
  }

  /** n lives and a burst: all from the start, in one window, without a stray. */
  lemma ExceedingLeg(d: Drain, n: nat)
    requires DrainOk(d)
    ensures 0 < d.rate <= TOKEN && SlowReads(d) >= 0 && SlowEnters(d) >= 0 && d.c.burst > 0
    ensures Leg(d, EMPTY, Exceeding(d, n), RunSteps(d.c, EMPTY, Exceeding(d, n)), n * (d.c.burst + d.k) + d.c.burst,
                0, n * Deleted(d))
  {
    hide *;
    Splits(d);
    LivesLeg(d, n);
    var to := n * Deleted(d);
    var w := RunSteps(d.c, EMPTY, Lives(d, n));
    BurstLeg(d, w, to, n);
    JoinTo(d, EMPTY, Lives(d, n), w, n * (d.c.burst + d.k), 0, to, AtOnce(0, n, "", d.rate, d.c.burst, to),
           d.c.burst, to);
    ExceedingIs(d, n);
  }

  lemma ExceedingIs(d: Drain, n: nat)
    requires 0 < d.rate <= TOKEN && SlowReads(d) >= 0 && SlowEnters(d) >= 0 && d.c.burst > 0
    ensures Exceeding(d, n) == Lives(d, n) + AtOnce(0, n, "", d.rate, d.c.burst, n * Deleted(d))
  {
  }

  lemma LegIsAWindow(d: Drain, steps: seq<Step>, w': World, n: int, to: Time)
    requires Leg(d, EMPTY, steps, w', n, 0, to)
    ensures RacyWindow(d.c, [], steps, "", d.rate, d.g, 0, to) && RunSteps(d.c, EMPTY, []) == EMPTY
    ensures Admissions(d.c, EMPTY, steps, "") == n && Strays(d.c, EMPTY, steps, "") == 0
  {
    Nothing(d.c, EMPTY, "", d.g);
    hide RunSteps, Admissions, Strays, PromptRun, LooksAtRate;
  }

  // ---- The threshold -------------------------------------------------------------------------

  /** In one life more is admitted than refills. */
  lemma LifeGains(d: Drain)
    requires DrainOk(d) && !RefillsInSpiteOf(d.c, d.rate, d.g)
    ensures (d.c.burst + d.k) * TOKEN >= Refill(d.rate, Deleted(d)) + 1
  {
    DueRefills(d.k, d.rate);
    var kept := d.c.idleTTL + 1 - 2 * d.g;
    hide DueAt, Refill, Residue, MaxShortfall;
    RefillAdds(d.rate, DueAt(d.k, d.rate), kept);
    RefillGrows(d.rate, 0, 0);
  }

  lemma Regroup(n: int, x: int, burst: int)
    ensures (n * x + burst) * TOKEN == n * (x * TOKEN) + burst * TOKEN
  {
    assert (n * x) * TOKEN == n * (x * TOKEN);
  }

  /** Where a bucket may be deleted before it is full, some run without a stray exceeds the
      bound. */
  lemma EarlyDeletionExceeds(c: Config, rate: int, g: int) returns (steps: seq<Step>, to: Time)
    requires c.burst > 0 && c.idleTTL > 0 && 0 < rate <= TOKEN && g >= 0 && !RefillsInSpiteOf(c, rate, g)
    ensures RacyWindow(c, [], steps, "", rate, g, 0, to)
    ensures Strays(c, RunSteps(c, EMPTY, []), steps, "") == 0
    ensures Admissions(c, RunSteps(c, EMPTY, []), steps, "") * TOKEN >= c.burst * TOKEN + Refill(rate, to) + rate
  {
    hide *;
    var d := FindDrain(c, rate, g);
    ExceedingLeg(d, rate);
    steps, to := Exceeding(d, rate), rate * Deleted(d);
    LegIsAWindow(d, steps, RunSteps(c, EMPTY, steps), rate * (c.burst + d.k) + c.burst, to);
    LifeGains(d);
    ManyTimes(rate, rate, Deleted(d), (c.burst + d.k) * TOKEN, c.burst * TOKEN);
    Regroup(rate, c.burst + d.k, c.burst);
  }

  lemma FindDrain(c: Config, rate: int, g: int) returns (d: Drain)
    requires c.burst > 0 && c.idleTTL > 0 && 0 < rate <= TOKEN && g >= 0
    ensures DrainOk(d) && d.c == c && d.rate == rate && d.g == g
  {
    var k := MaxIsReached(rate, rate * (2 * g + 1));
    d := Drain(c, rate, g, k);
    LateEnough(k, rate, 2 * g);
  }

  /** The rate bound, of every window after every history in which no request takes longer
      than g and at most n of the admitted ones are strays. */
  ghost predicate KeepsBound(c: Config, rate: int, g: int, n: nat) {
    forall history, steps, key, from, to |
      RacyWindow(c, history, steps, key, rate, g, from, to) && Strays(c, RunSteps(c, EMPTY, history), steps, key) <= n ::
      Admissions(c, RunSteps(c, EMPTY, history), steps, key) * TOKEN
        < c.burst * TOKEN + Refill(rate, to - from) + rate
  }

  lemma KeepsWithoutStrays(c: Config, rate: int, g: int)
    requires c.burst > 0 && rate > 0 && g >= 0 && RefillsInSpiteOf(c, rate, g)
    ensures KeepsBound(c, rate, g, 0)
  {
    hide RacyWindow, Admissions, Strays, RunSteps, Refill, RefillsInSpiteOf;
    forall history, steps, key, from, to |
      RacyWindow(c, history, steps, key, rate, g, from, to) && Strays(c, RunSteps(c, EMPTY, history), steps, key) <= 0
      ensures Admissions(c, RunSteps(c, EMPTY, history), steps, key) * TOKEN
        < c.burst * TOKEN + Refill(rate, to - from) + rate
    {
      RateBoundWithStrays(c, history, steps, key, rate, g, from, to);
    }
  }

  lemma StrayBreaksIt(c: Config, rate: int, g: int, n: nat)
    requires c.burst > 0 && c.idleTTL > 0 && 0 < rate <= TOKEN && g >= 0 && n > 0 && RefillsInSpiteOf(c, rate, g)
    ensures !KeepsBound(c, rate, g, n)
  {
    hide *;
    FullWhenDeleted(c, rate, g);
    OneStrayExceeds(c, rate, g);
    RefillGrows(rate, 0, 1);
    var w, later := RunSteps(c, EMPTY, First(rate)), c.idleTTL + 1;
    assert (c.burst + 1) * TOKEN >= c.burst * TOKEN + Refill(rate, later - later) + rate;
    NotKept(c, rate, g, n, First(rate), StrayRun(c, rate), "", later, later);
  }

  lemma FullWhenDeleted(c: Config, rate: int, g: int)
    requires rate > 0 && g >= 0 && RefillsInSpiteOf(c, rate, g)
    ensures c.burst * TOKEN <= Refill(rate, c.idleTTL + 1)
  {
    hide MaxShortfall, Refill;
    RefillGrows(rate, c.idleTTL + 1 - 2 * g, c.idleTTL + 1);
  }

  lemma NotKept(c: Config, rate: int, g: int, n: nat, history: seq<Step>, steps: seq<Step>, key: string,
                from: Time, to: Time)
    requires RacyWindow(c, history, steps, key, rate, g, from, to)
    requires Strays(c, RunSteps(c, EMPTY, history), steps, key) <= n
    requires Admissions(c, RunSteps(c, EMPTY, history), steps, key) * TOKEN
               >= c.burst * TOKEN + Refill(rate, to - from) + rate
    ensures !KeepsBound(c, rate, g, n)
  {
    hide RacyWindow, Admissions, Strays, RunSteps, Refill;
  }

  lemma EarlyDeletionBreaksIt(c: Config, rate: int, g: int, n: nat)
    requires c.burst > 0 && c.idleTTL > 0 && 0 < rate <= TOKEN && g >= 0 && !RefillsInSpiteOf(c, rate, g)
    ensures !KeepsBound(c, rate, g, n)
  {
    hide *;
    var steps, to := EarlyDeletionExceeds(c, rate, g);
    NotKept(c, rate, g, n, [], steps, "", 0, to);
  }

  /** The exact condition: the bound holds of all these runs if and only if none of them
      has a stray and a bucket, from the emptiest it can be, is full again when the janitor
      may first delete it. Rates are 32-bit numbers, so they are below the units in a
      token. */
  lemma BoundExactlyWhen(c: Config, rate: int, g: int, n: nat)
    requires c.burst > 0 && c.idleTTL > 0 && 0 < rate <= TOKEN && g >= 0
    ensures KeepsBound(c, rate, g, n) <==> n == 0 && RefillsInSpiteOf(c, rate, g)
  {
    hide KeepsBound, RefillsInSpiteOf;
    if !RefillsInSpiteOf(c, rate, g) {
      EarlyDeletionBreaksIt(c, rate, g, n);
    } else if n > 0 {
      StrayBreaksIt(c, rate, g, n);
    } else {
      KeepsWithoutStrays(c, rate, g);
    }
  }

  // ---- Settings -------------------------------------------------------------------------

  /** With a window of one token's refill the bound holds of requests that take no time, and
      fails for some that take a second, without a stray. */
  lemma OneSecondIsTooLong()
    ensures KeepsBound(Config(1, TOKEN), 1, 0, 0) && !KeepsBound(Config(1, TOKEN), 1, SECOND, 0)
  {
    AtRateOne();
    hide KeepsBound, RefillsInSpiteOf;
    BoundExactlyWhen(Config(1, TOKEN), 1, 0, 0);
    BoundExactlyWhen(Config(1, TOKEN), 1, SECOND, 0);
  }

  lemma AtRateOne()
    ensures MaxShortfall(1) == 0
    ensures RefillsInSpiteOf(Config(1, TOKEN), 1, 0) && !RefillsInSpiteOf(Config(1, TOKEN), 1, SECOND)
  {
    hide MaxShortfall;
  }

  /** The defaults keep the bound of requests that take up to two and a half minutes until
      they draw, except at one request a minute, where they keep it only of requests that
      take no time. */
  lemma DefaultsKeepBoundWhen(rate: int, g: int)
    requires 0 < rate <= TOKEN && 0 <= g
    ensures rate > 1 && g <= 150 * SECOND ==> KeepsBound(WithDefaults(0, 0), rate, g, 0)
    ensures rate == 1 ==> (KeepsBound(WithDefaults(0, 0), rate, g, 0) <==> g == 0)
  {
    var c := WithDefaults(0, 0);
    DefaultsRefillWithin(rate, 2 * g);
    hide KeepsBound, Refill, MaxShortfall;
    assert RefillsInSpiteOf(c, rate, g) <==>
           c.burst * TOKEN + MaxShortfall(rate) <= Refill(rate, c.idleTTL + 1 - 2 * g);
    hide RefillsInSpiteOf;
    BoundExactlyWhen(c, rate, g, 0);
  }
}
