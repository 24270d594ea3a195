/** A run of LimiterRaces that exceeds the rate bound because of one stray, and the sense in
    which the limiter may be taken to answer a request at one instant. */
module LimiterStrays {
  import opened Outcomes
  import opened TokenBucket
  import opened LimiterRaces

  // ---- A request that nothing interrupts ----------------------------------------------

  function Uninterrupted(r: RequestId, spare: BucketId, key: string, rpm: int, now: Time): seq<Step> {
    [Lookup(r, key, rpm, now), Enter(r, spare, now), Draw(r, now)]
  }

  lemma OneStep(c: Config, w: World, steps: seq<Step>, s: Step, key: string, g: int)
    ensures RunSteps(c, w, steps + [s]) == After(c, RunSteps(c, w, steps), s)
    ensures Admissions(c, w, steps + [s], key)
         == Admissions(c, w, steps, key) + AdmitsHere(c, RunSteps(c, w, steps), s, key)
    ensures Strays(c, w, steps + [s], key) == Strays(c, w, steps, key) + StraysHere(c, RunSteps(c, w, steps), s, key)
    ensures PromptRun(c, w, steps + [s], g) <==> PromptRun(c, w, steps, g) && PromptStep(RunSteps(c, w, steps), s, g)
  {
    assert (steps + [s])[..|steps + [s]| - 1] == steps;
  }

  lemma ThreeSteps(c: Config, w: World, r: RequestId, spare: BucketId, key: string, rpm: int, now: Time,
                   other: string, g: int)
    ensures
      var steps := Uninterrupted(r, spare, key, rpm, now);
      var w1 := After(c, w, steps[0]);
      var w2 := After(c, w1, steps[1]);
      && RunSteps(c, w, steps) == After(c, w2, steps[2])
      && Admissions(c, w, steps, other) == AdmitsHere(c, w2, steps[2], other)
      && Strays(c, w, steps, other) == StraysHere(c, w2, steps[2], other)
      && (PromptRun(c, w, steps, g) <==>
            PromptStep(w, steps[0], g) && PromptStep(w1, steps[1], g) && PromptStep(w2, steps[2], g))
  {
    var steps := Uninterrupted(r, spare, key, rpm, now);
    OneStep(c, w, [], steps[0], other, g);
    OneStep(c, w, [steps[0]], steps[1], other, g);
    OneStep(c, w, [steps[0], steps[1]], steps[2], other, g);
    assert [] + [steps[0]] == [steps[0]];
    assert [steps[0]] + [steps[1]] == [steps[0], steps[1]];
    assert [steps[0], steps[1]] + [steps[2]] == steps;
  }

  lemma EntersKnown(c: Config, w: World, r: RequestId, key: string, rate: int, now: Time)
    requires WorldOk(c, w, now) && r in w.flights && w.flights[r].key == key && w.flights[r].seen == now
    requires Usable(w, key, rate)
    ensures
      var w' := Touch(w, r, w.current[key]);
      View(w') == View(w)[key := View(w)[key].(lastSeen := now)]
  {
    var id := w.current[key];
    var b := w.cells[id].bucket.(lastSeen := now);
    SetBucketView(c, w, id, b, now);
    assert View(Touch(w, r, id)) == View(SetBucket(w, id, b));
  }

  lemma EntersLooked(c: Config, w: World, r: RequestId, spare: BucketId, key: string, rate: int, now: Time)
    requires WorldOk(c, w, now) && (spare !in w.cells || Usable(w, key, rate)) && rate > 0 && r in w.flights
    requires w.flights[r] == Looked(key, rate, now, if Usable(w, key, rate) then Some(w.current[key]) else None)
    ensures
      var w' := After(c, w, Enter(r, spare, now));
      && CanDraw(w', r) && w'.flights == w.flights[r := Holding(key, rate, now, w'.flights[r].id)]
      && key in w'.current && w'.current[key] == w'.flights[r].id
      && w'.current[key] == (if Usable(w, key, rate) then w.current[key] else spare)
      && w'.cells.Keys == w.cells.Keys + {w'.current[key]}
      && View(w') == View(w)[key := if Usable(w, key, rate) then View(w)[key].(lastSeen := now)
                                    else Bucket(c.burst * TOKEN, now, now, rate)]
  {
    if Usable(w, key, rate) {
      EntersKnown(c, w, r, key, rate, now);
      assert After(c, w, Enter(r, spare, now)) == Touch(w, r, w.current[key]);
      hide After, View, WorldOk;
    } else {
      CreateView(c, w, r, spare);
      assert After(c, w, Enter(r, spare, now)) == Create(c, w, r, spare);
      hide After, View, WorldOk;
    }
  }

  /** Between lookup and draw: the request holds the key's own bucket, stamped. */
  lemma EntersItsBucket(c: Config, w: World, r: RequestId, spare: BucketId, key: string, rpm: int, now: Time)
    requires c.burst > 0 && WorldOk(c, w, now) && r !in w.flights && (spare !in w.cells || Usable(w, key, Rate(rpm)))
    ensures
      var w2 := After(c, After(c, w, Lookup(r, key, rpm, now)), Enter(r, spare, now));
      && CanDraw(w2, r) && w2.flights == w.flights[r := Holding(key, Rate(rpm), now, w2.flights[r].id)]
      && key in w2.current && w2.current[key] == w2.flights[r].id
      && w2.current[key] == (if Usable(w, key, Rate(rpm)) then w.current[key] else spare)
      && w2.cells.Keys == w.cells.Keys + {w2.current[key]}
      && View(w2) == View(w)[key := BucketFor(c, View(w), key, rpm, now)]
  {
    var rate := Rate(rpm);
    var w1 := After(c, w, Lookup(r, key, rpm, now));
    StepKeepsWorld(c, w, Lookup(r, key, rpm, now));
    assert View(w1) == View(w) && w1.cells == w.cells && w1.current == w.current;
    assert Usable(w1, key, rate) == Usable(w, key, rate);
    assert w1.flights == w.flights[r := Looked(key, rate, now, if Usable(w, key, rate) then Some(w.current[key]) else None)];
    hide After, View, WorldOk, CanDraw;
    EntersLooked(c, w1, r, spare, key, rate, now);
    var f := Holding(key, rate, now, After(c, w1, Enter(r, spare, now)).flights[r].id);
    assert w.flights[r := w1.flights[r]][r := f] == w.flights[r := f];
  }

  /** Drawing from the key's own bucket. */
  lemma DrawsFromItsBucket(c: Config, w: World, r: RequestId, now: Time)
    requires c.burst > 0 && WorldOk(c, w, now) && CanDraw(w, r)
    requires w.flights[r].key in w.current && w.current[w.flights[r].key] == w.flights[r].id
    ensures
      var key, s := w.flights[r].key, Draw(r, now);
      && key in View(w) && View(w)[key] == Held(w, r)
      && View(After(c, w, s)) == View(w)[key := AfterReserve(c, Held(w, r), now)]
      && After(c, w, s).flights == w.flights - {r}
      && After(c, w, s).current == w.current && After(c, w, s).cells.Keys == w.cells.Keys
      && AdmitsHere(c, w, s, key) == (if Answer(c, Held(w, r), now).Allowed? then 1 else 0)
      && StraysHere(c, w, s, key) == 0
  {
    hide AfterReserve, Answer;
    var id, b := w.flights[r].id, AfterReserve(c, Held(w, r), now);
    assert FlightOk(w, w.flights[r], now);
    SetBucketView(c, w, id, b, now);
    assert View(After(c, w, Draw(r, now))) == View(SetBucket(w, id, b));
  }

  /** A request that nothing interrupts is the one event of the atomic model: same buckets
      afterwards, same answer, and no stray. */
  lemma UninterruptedIsOneEvent(c: Config, w: World, r: RequestId, spare: BucketId, key: string, rpm: int, now: Time)
    requires c.burst > 0 && WorldOk(c, w, now) && r !in w.flights
    requires spare !in w.cells || Usable(w, key, Rate(rpm))
    ensures
      var steps := Uninterrupted(r, spare, key, rpm, now);
      && View(RunSteps(c, w, steps)) == Next(c, View(w), Request(key, rpm, now))
      && Admissions(c, w, steps, key) == Takes(c, View(w), Request(key, rpm, now), key)
      && Strays(c, w, steps, key) == 0
      && RunSteps(c, w, steps).flights == w.flights
      && key in RunSteps(c, w, steps).current
      && RunSteps(c, w, steps).current[key] == (if Usable(w, key, Rate(rpm)) then w.current[key] else spare)
      && RunSteps(c, w, steps).cells.Keys == w.cells.Keys + {RunSteps(c, w, steps).current[key]}
  {
    hide After, View, WorldOk, AfterReserve, Answer, AdmitsHere, StraysHere, RunSteps, Admissions, Strays, BucketFor;
    hide Next, Takes, Usable, PromptRun, PromptStep, CanDraw, Held;
    var w1 := After(c, w, Lookup(r, key, rpm, now));
    var w2 := After(c, w1, Enter(r, spare, now));
    ThreeSteps(c, w, r, spare, key, rpm, now, key, 0);
    EntersItsBucket(c, w, r, spare, key, rpm, now);
    StepKeepsWorld(c, w, Lookup(r, key, rpm, now));
    StepKeepsWorld(c, w1, Enter(r, spare, now));
    DrawsFromItsBucket(c, w2, r, now);
    NextOfRequest(c, View(w), key, rpm, now);
    PutTwice(View(w), key, BucketFor(c, View(w), key, rpm, now), Held(w2, r), AfterReserve(c, Held(w2, r), now));
    PutAndDrop(w.flights, r, w2.flights[r]);
  }

  lemma NextOfRequest(c: Config, m: Buckets, key: string, rpm: int, now: Time)
    ensures
      var b := BucketFor(c, m, key, rpm, now);
      && Next(c, m, Request(key, rpm, now)) == m[key := AfterReserve(c, b, now)]
      && Takes(c, m, Request(key, rpm, now), key) == if Answer(c, b, now).Allowed? then 1 else 0
  {
  }

  lemma PutTwice(m: Buckets, key: string, b: Bucket, held: Bucket, b': Bucket)
    requires m[key := b][key] == held
    ensures held == b && m[key := b][key := b'] == m[key := b']
  {
  }

  lemma PutAndDrop(flights: map<RequestId, Flight>, r: RequestId, f: Flight)
    requires r !in flights
    ensures flights[r := f] - {r} == flights
  {
  }

  // ---- A run that exceeds the bound ------------------------------------------------------

  lemma Nothing(c: Config, w: World, key: string, g: int)
    ensures RunSteps(c, w, []) == w && Admissions(c, w, [], key) == 0 == Strays(c, w, [], key) && PromptRun(c, w, [], g)
  {
  }

  lemma {:induction false} Concatenated(c: Config, w: World, a: seq<Step>, b: seq<Step>, key: string, g: int)
    ensures RunSteps(c, w, a + b) == RunSteps(c, RunSteps(c, w, a), b)
    ensures Admissions(c, w, a + b, key) == Admissions(c, w, a, key) + Admissions(c, RunSteps(c, w, a), b, key)
    ensures Strays(c, w, a + b, key) == Strays(c, w, a, key) + Strays(c, RunSteps(c, w, a), b, key)
    ensures PromptRun(c, w, a + b, g) <==> PromptRun(c, w, a, g) && PromptRun(c, RunSteps(c, w, a), b, g)
    decreases |b|
  {
    if b == [] {
      assert a + b == a;
    } else {
      var front, s := b[..|b| - 1], b[|b| - 1];
      assert a + b == (a + front) + [s] && b == front + [s];
      hide After, AdmitsHere, StraysHere, PromptStep, RunSteps, Admissions, Strays, PromptRun;
      Concatenated(c, w, a, front, key, g);
      OneStep(c, w, a + front, s, key, g);
      OneStep(c, RunSteps(c, w, a), front, s, key, g);
    }
  }

  /** What the burst of a counterexample needs of the world it starts from. */
  ghost predicate Quiet(c: Config, w: World, r: RequestId, spare: BucketId, key: string, rate: int, now: Time) {
    && WorldOk(c, w, now) && SameRate(w, key, rate) && r !in w.flights
    && (spare !in w.cells || Usable(w, key, rate))
  }

  lemma StampedAtOnce(c: Config, w: World, r: RequestId, spare: BucketId, key: string, rate: int, now: Time, g: int)
    requires c.burst > 0 && rate > 0 && g >= 0 && Quiet(c, w, r, spare, key, rate, now)
    ensures PromptRun(c, w, Uninterrupted(r, spare, key, rate, now), g)
  {
    hide RunSteps, Admissions, Strays, Usable, View;
    ThreeSteps(c, w, r, spare, key, rate, now, key, g);
    EntersItsBucket(c, w, r, spare, key, rate, now);
  }

  lemma LevelAfterOne(c: Config, w: World, r: RequestId, spare: BucketId, key: string, rate: int, now: Time)
    requires c.burst > 0 && rate > 0 && Quiet(c, w, r, spare, key, rate, now)
    ensures
      var steps := Uninterrupted(r, spare, key, rate, now);
      var w' := RunSteps(c, w, steps);
      && WorldOk(c, w', now) && SameRate(w', key, rate)
      && LevelFor(c, w', key, rate, now)
         == LevelFor(c, w, key, rate, now) - TOKEN * (Admissions(c, w, steps, key) - Strays(c, w, steps, key))
  {
    var steps := Uninterrupted(r, spare, key, rate, now);
    var w1 := After(c, w, steps[0]);
    var w2 := After(c, w1, steps[1]);
    hide After, WorldOk, SameRate, LevelFor, AdmitsHere, StraysHere, RunSteps, Admissions, Strays;
    ThreeSteps(c, w, r, spare, key, rate, now, key, 0);
    NotTheJanitor(c, w, steps[0], key, rate);
    NotTheJanitor(c, w1, steps[1], key, rate);
    NotTheJanitor(c, w2, steps[2], key, rate);
    assert AdmitsHere(c, w, steps[0], key) == 0 == AdmitsHere(c, w1, steps[1], key) by {
      OnlyDrawsAdmit(c, w, w1, steps, key);
    }
  }

  lemma OnlyDrawsAdmit(c: Config, w: World, w1: World, steps: seq<Step>, key: string)
    requires |steps| > 1 && !steps[0].Draw? && !steps[1].Draw?
    ensures AdmitsHere(c, w, steps[0], key) == 0 == StraysHere(c, w, steps[0], key)
    ensures AdmitsHere(c, w1, steps[1], key) == 0 == StraysHere(c, w1, steps[1], key)
  {
  }

  lemma NotTheJanitor(c: Config, w: World, s: Step, key: string, rate: int)
    requires c.burst > 0 && rate > 0 && WorldOk(c, w, s.now) && SameRate(w, key, rate) && !s.Janitor?
    requires s.Lookup? && s.key == key ==> Rate(s.rpm) == rate
    ensures WorldOk(c, After(c, w, s), s.now) && SameRate(After(c, w, s), key, rate)
    ensures LevelFor(c, After(c, w, s), key, rate, s.now)
         == LevelFor(c, w, key, rate, s.now) - TOKEN * (AdmitsHere(c, w, s, key) - StraysHere(c, w, s, key))
  {
    StepKeepsWorld(c, w, s);
    StepKeepsRate(c, w, s, key, rate);
    StepBalance(c, w, s, key, rate);
  }

  /** The key has a bucket, the one it had if it had one of the rate and else the spare
      one; there are no other new buckets, and the requests under way are the same. */
  ghost predicate SameButFor(w: World, w': World, spare: BucketId, key: string, rate: int) {
    && w'.flights == w.flights && Usable(w', key, rate)
    && w'.current[key] == (if Usable(w, key, rate) then w.current[key] else spare)
    && w'.cells.Keys == w.cells.Keys + {w'.current[key]}
  }

  lemma SameButForTwice(w: World, w1: World, w2: World, spare: BucketId, key: string, rate: int)
    requires SameButFor(w, w1, spare, key, rate) && SameButFor(w1, w2, spare, key, rate)
    ensures SameButFor(w, w2, spare, key, rate)
  {
  }

  /** A request that finds a token is admitted from the key's own bucket. */
  lemma OneIsAdmitted(c: Config, w: World, r: RequestId, spare: BucketId, key: string, rate: int, now: Time, g: int)
    requires c.burst > 0 && rate > 0 && g >= 0 && Quiet(c, w, r, spare, key, rate, now)
    requires LevelFor(c, w, key, rate, now) - TOKEN > -rate
    ensures
      var steps := Uninterrupted(r, spare, key, rate, now);
      var w' := RunSteps(c, w, steps);
      && SameButFor(w, w', spare, key, rate)
      && Admissions(c, w, steps, key) == 1 && Strays(c, w, steps, key) == 0 && PromptRun(c, w, steps, g)
      && Quiet(c, w', r, spare, key, rate, now)
      && LevelFor(c, w', key, rate, now) == LevelFor(c, w, key, rate, now) - TOKEN
  {
    var w' := RunSteps(c, w, Uninterrupted(r, spare, key, rate, now));
    UninterruptedIsOneEvent(c, w, r, spare, key, rate, now);
    AdmitsExactly(c, View(w), key, rate, now);
    StampedAtOnce(c, w, r, spare, key, rate, now, g);
    LevelAfterOne(c, w, r, spare, key, rate, now);
    assert Usable(w', key, rate);
  }

  /** n requests for the key, one after the other at one instant. */
  function AtOnce(r: RequestId, spare: BucketId, key: string, rate: int, n: nat, now: Time): (steps: seq<Step>)
    ensures forall i | 0 <= i < |steps| ::
      steps[i].now == now && (steps[i].Lookup? ==> steps[i].key == key && steps[i].rpm == rate)
  {
    if n == 0 then [] else AtOnce(r, spare, key, rate, n - 1, now) + Uninterrupted(r, spare, key, rate, now)
  }

  lemma {:induction false} AllAreAdmitted(c: Config, w: World, r: RequestId, spare: BucketId, key: string, rate: int,
                                          n: nat, now: Time, g: int)
    requires c.burst > 0 && rate > 0 && g >= 0 && Quiet(c, w, r, spare, key, rate, now)
    requires LevelFor(c, w, key, rate, now) >= n * TOKEN
    ensures
      var steps := AtOnce(r, spare, key, rate, n, now);
      var w' := RunSteps(c, w, steps);
      && Admissions(c, w, steps, key) == n && Strays(c, w, steps, key) == 0 && PromptRun(c, w, steps, g)
      && Quiet(c, w', r, spare, key, rate, now)
      && LevelFor(c, w', key, rate, now) == LevelFor(c, w, key, rate, now) - n * TOKEN
      && (n > 0 ==> SameButFor(w, w', spare, key, rate))
    decreases n
  {
    hide RunSteps, Admissions, Strays, PromptRun, Quiet, LevelFor, Uninterrupted;
    if n == 0 {
      Nothing(c, w, key, g);
    } else {
      var front, last := AtOnce(r, spare, key, rate, n - 1, now), Uninterrupted(r, spare, key, rate, now);
      AllAreAdmitted(c, w, r, spare, key, rate, n - 1, now, g);
      hide SameButFor;
      OneIsAdmitted(c, RunSteps(c, w, front), r, spare, key, rate, now, g);
      Concatenated(c, w, front, last, key, g);
      if n > 1 {
        SameButForTwice(w, RunSteps(c, w, front), RunSteps(c, w, front + last), spare, key, rate);
      } else {
        assert RunSteps(c, w, []) == w by { Nothing(c, w, key, g); }
      }
    }
  }

  /** A request looks its bucket up, and before it enters the lock the janitor deletes it. */
  function Raced(r: RequestId, spare: BucketId, key: string, rate: int, now: Time): seq<Step> {
    [Lookup(r, key, rate, now), Janitor(now), Enter(r, spare, now), Draw(r, now)]
  }

  lemma FourSteps(c: Config, w: World, r: RequestId, spare: BucketId, key: string, rate: int, now: Time, g: int)
    ensures
      var steps := Raced(r, spare, key, rate, now);
      var w1 := After(c, w, steps[0]);
      var w2 := After(c, w1, steps[1]);
      var w3 := After(c, w2, steps[2]);
      && RunSteps(c, w, steps) == After(c, w3, steps[3])
      && Admissions(c, w, steps, key) == AdmitsHere(c, w3, steps[3], key)
      && Strays(c, w, steps, key) == StraysHere(c, w3, steps[3], key)
      && (PromptStep(w2, steps[2], g) && PromptStep(w3, steps[3], g) ==> PromptRun(c, w, steps, g))
  {
    var steps := Raced(r, spare, key, rate, now);
    hide After, RunSteps, Admissions, Strays, PromptRun;
    Nothing(c, w, key, g);
    OneStep(c, w, [], steps[0], key, g);
    OneStep(c, w, [steps[0]], steps[1], key, g);
    OneStep(c, w, [steps[0], steps[1]], steps[2], key, g);
    OneStep(c, w, [steps[0], steps[1], steps[2]], steps[3], key, g);
    assert [] + [steps[0]] == [steps[0]];
    assert [steps[0]] + [steps[1]] == [steps[0], steps[1]];
    assert [steps[0], steps[1]] + [steps[2]] == [steps[0], steps[1], steps[2]];
    assert [steps[0], steps[1], steps[2]] + [steps[3]] == steps;
  }

  /** It then draws from the deleted bucket, and the next request finds a full one. */
  lemma OneStray(c: Config, w: World, r: RequestId, spare: BucketId, key: string, rate: int, now: Time, g: int)
    requires c.burst > 0 && rate > 0 && g >= 0 && Quiet(c, w, r, spare, key, rate, now) && spare !in w.cells
    requires Usable(w, key, rate) && View(w)[key].lastSeen < now - c.idleTTL && Level(c, View(w)[key], now) >= TOKEN
    ensures
      var steps := Raced(r, spare, key, rate, now);
      var w' := RunSteps(c, w, steps);
      && Admissions(c, w, steps, key) == 1 == Strays(c, w, steps, key) && PromptRun(c, w, steps, g)
      && Quiet(c, w', r, spare, key, rate, now) && LevelFor(c, w', key, rate, now) == c.burst * TOKEN
  {
    var steps := Raced(r, spare, key, rate, now);
    FourSteps(c, w, r, spare, key, rate, now, g);
    hide RunSteps, Admissions, Strays, PromptRun, AfterReserve, Answer, Level;
    var id := w.current[key];
    var w1 := After(c, w, steps[0]);
    var w2 := After(c, w1, steps[1]);
    var w3 := After(c, w2, steps[2]);
    assert View(w1) == View(w) && w1.flights[r] == Looked(key, rate, now, Some(id));
    assert key !in w2.current && w2.cells == w.cells && w2.flights == w1.flights;
    assert w3 == Touch(w2, r, id);
    StillHasAToken(c, w.cells[id].bucket, now);
    StepKeepsWorld(c, w, steps[0]);
    StepKeepsWorld(c, w1, steps[1]);
    StepKeepsWorld(c, w2, steps[2]);
    StepKeepsWorld(c, w3, steps[3]);
    assert After(c, w3, steps[3]).flights == w.flights;
  }

  lemma StillHasAToken(c: Config, b: Bucket, now: Time)
    requires b.rpm > 0 && Level(c, b, now) >= TOKEN
    ensures Answer(c, b.(lastSeen := now), now).Allowed?
  {
  }

  lemma FirstRequest(c: Config, rate: int, g: int)
    requires c.burst > 0 && rate > 0 && g >= 0
    ensures
      var w := RunSteps(c, EMPTY, Uninterrupted(0, 0, "", rate, 0));
      && PromptRun(c, EMPTY, Uninterrupted(0, 0, "", rate, 0), g)
      && Quiet(c, w, 0, 1, "", rate, 0) && w.flights == map[] && 1 !in w.cells
      && Usable(w, "", rate) && View(w)[""].lastSeen == 0
      && LevelFor(c, w, "", rate, 0) == c.burst * TOKEN - TOKEN
  {
    hide RunSteps, Admissions, Strays, PromptRun, AfterReserve, Answer, Uninterrupted;
    assert Quiet(c, EMPTY, 0, 0, "", rate, 0) && LevelFor(c, EMPTY, "", rate, 0) == c.burst * TOKEN;
    OneIsAdmitted(c, EMPTY, 0, 0, "", rate, 0, g);
    UninterruptedIsOneEvent(c, EMPTY, 0, 0, "", rate, 0);
    StampStays(c, BucketFor(c, map[], "", rate, 0), 0);
  }

  lemma StampStays(c: Config, b: Bucket, now: Time)
    requires b.rpm > 0
    ensures AfterReserve(c, b, now).lastSeen == b.lastSeen
  {
  }

  lemma FullAgain(c: Config, rate: int, w: World, later: Time)
    requires c.burst > 0 && rate > 0 && Quiet(c, w, 0, 1, "", rate, 0) && later >= 0
    requires LevelFor(c, w, "", rate, 0) == c.burst * TOKEN - TOKEN && c.burst * TOKEN <= Refill(rate, later)
    ensures Quiet(c, w, 0, 1, "", rate, later) && LevelFor(c, w, "", rate, later) == c.burst * TOKEN >= TOKEN
  {
    hide WorldOk, LevelFor, Refill, SameRate, Usable;
    LevelForGrows(c, w, "", rate, 0, later);
    WorldOkLater(c, w, 0, later);
  }

  /** One request at the start; later, with its bucket full and idle, a race that the
      janitor wins; and a burst. */
  function First(rate: int): seq<Step> {
    Uninterrupted(0, 0, "", rate, 0)
  }

  function StrayRun(c: Config, rate: int): seq<Step>
    requires c.burst > 0
  {
    var later := c.idleTTL + 1;
    Raced(0, 1, "", rate, later) + AtOnce(0, 1, "", rate, c.burst, later)
  }

  lemma InOneInstant(rate: int)
    ensures First(rate) == Uninterrupted(0, 0, "", rate, 0) && First(rate) != []
    ensures First(rate)[0].now == 0 && forall later: Time | later >= 0 :: StepsWithin(First(rate), 0, later)
  {
  }

  lemma StrayRunIsAWindow(c: Config, rate: int, g: int)
    requires c.burst > 0 && c.idleTTL > 0 && rate > 0 && g >= 0
    requires PromptRun(c, RunSteps(c, EMPTY, First(rate)), StrayRun(c, rate), g)
    ensures RacyWindow(c, First(rate), StrayRun(c, rate), "", rate, g, c.idleTTL + 1, c.idleTTL + 1)
  {
    hide RunSteps, PromptRun, SameRate, Uninterrupted;
    FirstRequest(c, rate, g);
    InOneInstant(rate);
    var raced, rest := Raced(0, 1, "", rate, c.idleTTL + 1), AtOnce(0, 1, "", rate, c.burst, c.idleTTL + 1);
    var steps := StrayRun(c, rate);
    forall i: nat | i < |steps|
      ensures steps[i].now == c.idleTTL + 1
      ensures steps[i].Lookup? ==> steps[i].rpm == rate
    {
      assert i >= |raced| ==> steps[i] == rest[i - |raced|];
    }
  }

  lemma LevelForIs(c: Config, w: World, key: string, rate: int, now: Time)
    requires Usable(w, key, rate)
    ensures LevelFor(c, w, key, rate, now) == Level(c, View(w)[key], now)
  {
  }

  lemma StrayRunIs(c: Config, rate: int)
    requires c.burst > 0
    ensures
      var later := c.idleTTL + 1;
      StrayRun(c, rate) == Raced(0, 1, "", rate, later) + AtOnce(0, 1, "", rate, c.burst, later)
    ensures First(rate) == Uninterrupted(0, 0, "", rate, 0)
  {
  }

  /** One more than the burst at a single instant, one of them a stray, if a bucket that
      has served one request is full when the janitor may first delete it. */
  lemma OneStrayExceeds(c: Config, rate: int, g: int)
    requires c.burst > 0 && c.idleTTL > 0 && rate > 0 && g >= 0 && c.burst * TOKEN <= Refill(rate, c.idleTTL + 1)
    ensures
      var w := RunSteps(c, EMPTY, First(rate));
      && RacyWindow(c, First(rate), StrayRun(c, rate), "", rate, g, c.idleTTL + 1, c.idleTTL + 1)
      && Admissions(c, w, StrayRun(c, rate), "") == c.burst + 1 && Strays(c, w, StrayRun(c, rate), "") == 1
  {
    hide *;
    var later := c.idleTTL + 1;
    StrayRunIs(c, rate);
    var w := RunSteps(c, EMPTY, First(rate));
    FirstRequest(c, rate, g);
    FullAgain(c, rate, w, later);
    LevelForIs(c, w, "", rate, later);
    var raced := Raced(0, 1, "", rate, later);
    OneStray(c, w, 0, 1, "", rate, later, g);
    AllAreAdmitted(c, RunSteps(c, w, raced), 0, 1, "", rate, c.burst, later, g);
    Concatenated(c, w, raced, AtOnce(0, 1, "", rate, c.burst, later), "", g);
    StrayRunIsAWindow(c, rate, g);
  }
}
