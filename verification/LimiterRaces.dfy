/** The limiter without the assumption that a request runs at one instant. A request reads
    the clock and looks its bucket up, then enters the lock to stamp or create it, and then
    draws from the bucket it holds; other requests and the janitor may run in between. The
    janitor can so delete a bucket that a request is about to draw from. A draw is one step
    at one instant here, with its Reserve, Delay and Cancel, and a request's delay g is the
    time until it draws; Reservations and Renewals take the three calls apart. */
module LimiterRaces {
  import opened Outcomes
  import opened Shortfall
  import opened TokenBucket

  type RequestId = nat
  type BucketId = nat

  /** A bucket as an object, with the key it was made for. */
  datatype Cell = Cell(key: string, bucket: Bucket)

  /** Where a request is; `seen` is the time it read from the clock. */
  datatype Flight =
    | Looked(key: string, rate: int, seen: Time, found: Option<BucketId>)
    | Holding(key: string, rate: int, seen: Time, id: BucketId)

  datatype World = World(cells: map<BucketId, Cell>, current: map<string, BucketId>, flights: map<RequestId, Flight>)

  datatype Step =
    | Lookup(r: RequestId, key: string, rpm: int, now: Time)
    | Enter(r: RequestId, spare: BucketId, now: Time)
    | Draw(r: RequestId, now: Time)
    | Janitor(now: Time)

  const EMPTY: World := World(map[], map[], map[])

  // ---- Steps ----------------------------------------------------------------------

  /** The map that the limiter keeps, with the buckets it points to. */
  function View(w: World): Buckets {
    map key | key in w.current && w.current[key] in w.cells :: w.cells[w.current[key]].bucket
  }

  predicate Usable(w: World, key: string, rate: int) {
    key in View(w) && View(w)[key].rpm == rate
  }

  function SetBucket(w: World, id: BucketId, b: Bucket): World
    requires id in w.cells
  {
    w.(cells := w.cells[id := w.cells[id].(bucket := b)])
  }

  /** Stamp the bucket with the time the request has read, and hold on to it. */
  function Touch(w: World, r: RequestId, id: BucketId): World
    requires r in w.flights && id in w.cells
  {
    var f := w.flights[r];
    SetBucket(w, id, w.cells[id].bucket.(lastSeen := f.seen)).(flights := w.flights[r := Holding(f.key, f.rate, f.seen, id)])
  }

  function Create(c: Config, w: World, r: RequestId, id: BucketId): World
    requires r in w.flights
  {
    var f := w.flights[r];
    World(w.cells[id := Cell(f.key, Bucket(c.burst * TOKEN, f.seen, f.seen, f.rate))], w.current[f.key := id],
          w.flights[r := Holding(f.key, f.rate, f.seen, id)])
  }

  predicate CanEnter(w: World, r: RequestId) {
    r in w.flights && w.flights[r].Looked?
  }

  predicate CanDraw(w: World, r: RequestId) {
    && r in w.flights && w.flights[r].Holding?
    && w.flights[r].id in w.cells && w.cells[w.flights[r].id].bucket.rpm > 0
  }

  function Held(w: World, r: RequestId): Bucket
    requires CanDraw(w, r)
  {
    w.cells[w.flights[r].id].bucket
  }

  function After(c: Config, w: World, s: Step): World {
    match s
    case Lookup(r, key, rpm, now) =>
      if r in w.flights then w
      else
        var found := if Usable(w, key, Rate(rpm)) then Some(w.current[key]) else None;
        w.(flights := w.flights[r := Looked(key, Rate(rpm), now, found)])
    case Enter(r, spare, _) =>
      if !CanEnter(w, r) then w
      else
        var f := w.flights[r];
        if f.found.Some? && f.found.value in w.cells then Touch(w, r, f.found.value)
        else if Usable(w, f.key, f.rate) then Touch(w, r, w.current[f.key])
        else if spare in w.cells then w
        else Create(c, w, r, spare)
    case Draw(r, now) =>
      if !CanDraw(w, r) then w
      else
        SetBucket(w, w.flights[r].id, AfterReserve(c, Held(w, r), now)).(flights := w.flights - {r})
    case Janitor(now) =>
      w.(current := map key | key in View(w) && !(View(w)[key].lastSeen < now - c.idleTTL) :: w.current[key])
  }

  /** 1 if the step admits a request for the key. */
  function AdmitsHere(c: Config, w: World, s: Step, key: string): nat {
    if s.Draw? && CanDraw(w, s.r) && w.flights[s.r].key == key && Answer(c, Held(w, s.r), s.now).Allowed? then 1 else 0
  }

  /** 1 if it does so from a bucket that is no longer the key's. */
  function StraysHere(c: Config, w: World, s: Step, key: string): nat {
    if AdmitsHere(c, w, s, key) == 1 && !(key in w.current && w.current[key] == w.flights[s.r].id) then 1 else 0
  }

  function RunSteps(c: Config, w: World, steps: seq<Step>): World {
    if steps == [] then w else After(c, RunSteps(c, w, steps[..|steps| - 1]), steps[|steps| - 1])
  }

  function Admissions(c: Config, w: World, steps: seq<Step>, key: string): nat {
    if steps == [] then 0
    else
      var front := steps[..|steps| - 1];
      Admissions(c, w, front, key) + AdmitsHere(c, RunSteps(c, w, front), steps[|steps| - 1], key)
  }

  function Strays(c: Config, w: World, steps: seq<Step>, key: string): nat {
    if steps == [] then 0
    else
      var front := steps[..|steps| - 1];
      Strays(c, w, front, key) + StraysHere(c, RunSteps(c, w, front), steps[|steps| - 1], key)
  }

  // ---- What every step keeps --------------------------------------------------------

  ghost predicate CellOk(c: Config, b: Bucket, now: Time) {
    b.rpm > 0 && -b.rpm < b.tokens <= c.burst * TOKEN && b.last <= now && b.lastSeen <= now
  }

  ghost predicate FlightOk(w: World, f: Flight, now: Time) {
    && f.rate > 0 && f.seen <= now
    && (f.Holding? ==> Fits(w, f.id, f))
    && (f.Looked? && f.found.Some? ==> Fits(w, f.found.value, f))
  }

  /** The bucket was made for the flight's key and rate. */
  ghost predicate Fits(w: World, id: BucketId, f: Flight) {
    id in w.cells && w.cells[id].key == f.key && w.cells[id].bucket.rpm == f.rate
  }

  ghost predicate WorldOk(c: Config, w: World, now: Time) {
    && (forall id | id in w.cells :: CellOk(c, w.cells[id].bucket, now))
    && (forall key | key in w.current :: w.current[key] in w.cells && w.cells[w.current[key]].key == key)
    && (forall r | r in w.flights :: FlightOk(w, w.flights[r], now))
  }

  lemma DrawKeepsCell(c: Config, b: Bucket, now: Time)
    requires c.burst > 0 && CellOk(c, b, now)
    ensures
      var b' := AfterReserve(c, b, now);
      && CellOk(c, b', now) && b'.rpm == b.rpm && b'.last == now && b'.lastSeen == b.lastSeen
      && b'.tokens == Level(c, b, now) - if Answer(c, b, now).Allowed? then TOKEN else 0
  {
    hide Refill;
    ReserveKeepsOk(c, b.(lastSeen := now), now);
  }

  lemma SetBucketKeeps(c: Config, w: World, id: BucketId, b: Bucket, now: Time)
    requires WorldOk(c, w, now) && id in w.cells && CellOk(c, b, now) && b.rpm == w.cells[id].bucket.rpm
    ensures WorldOk(c, SetBucket(w, id, b), now)
  {
    var w' := SetBucket(w, id, b);
    forall r | r in w'.flights ensures FlightOk(w', w'.flights[r], now) {
      assert FlightOk(w, w.flights[r], now);
    }
  }

  lemma PutFlightKeeps(c: Config, w: World, r: RequestId, f: Flight, now: Time)
    requires WorldOk(c, w, now) && FlightOk(w, f, now)
    ensures WorldOk(c, w.(flights := w.flights[r := f]), now)
  {
    var w' := w.(flights := w.flights[r := f]);
    forall q | q in w'.flights ensures FlightOk(w', w'.flights[q], now) {
      assert q != r ==> FlightOk(w, w.flights[q], now);
    }
  }

  lemma TouchKeeps(c: Config, w: World, r: RequestId, id: BucketId, now: Time)
    requires WorldOk(c, w, now) && r in w.flights && Fits(w, id, w.flights[r])
    ensures WorldOk(c, Touch(w, r, id), now)
  {
    var f := w.flights[r];
    assert FlightOk(w, f, now) && CellOk(c, w.cells[id].bucket, now);
    var b := w.cells[id].bucket.(lastSeen := f.seen);
    SetBucketKeeps(c, w, id, b, now);
    PutFlightKeeps(c, SetBucket(w, id, b), r, Holding(f.key, f.rate, f.seen, id), now);
  }

  lemma CreateKeeps(c: Config, w: World, r: RequestId, id: BucketId, now: Time)
    requires c.burst > 0 && WorldOk(c, w, now) && r in w.flights && id !in w.cells
    ensures WorldOk(c, Create(c, w, r, id), now)
  {
    var w' := Create(c, w, r, id);
    assert FlightOk(w, w.flights[r], now);
    forall q | q in w'.flights ensures FlightOk(w', w'.flights[q], now) {
      assert q != r ==> FlightOk(w, w.flights[q], now);
    }
  }

  lemma StepKeepsWorld(c: Config, w: World, s: Step)
    requires c.burst > 0 && WorldOk(c, w, s.now)
    ensures WorldOk(c, After(c, w, s), s.now)
  {
    match s
    case Lookup(r, key, rpm, now) =>
      if r !in w.flights {
        var found := if Usable(w, key, Rate(rpm)) then Some(w.current[key]) else None;
        PutFlightKeeps(c, w, r, Looked(key, Rate(rpm), now, found), now);
      }
    case Enter(r, spare, now) => EnterKeeps(c, w, r, spare, now);
    case Draw(r, now) =>
      if CanDraw(w, r) {
        hide AfterReserve, Answer;
        DrawKeepsCell(c, Held(w, r), now);
        SetBucketKeeps(c, w, w.flights[r].id, AfterReserve(c, Held(w, r), now), now);
      }
    case Janitor(now) =>
  }

  lemma EnterKeeps(c: Config, w: World, r: RequestId, spare: BucketId, now: Time)
    requires c.burst > 0 && WorldOk(c, w, now)
    ensures WorldOk(c, After(c, w, Enter(r, spare, now)), now)
  {
    if CanEnter(w, r) {
      var f := w.flights[r];
      assert FlightOk(w, f, now);
      var known := if f.found.Some? then f.found else if Usable(w, f.key, f.rate) then Some(w.current[f.key]) else None;
      if known.Some? {
        TouchKeeps(c, w, r, known.value, now);
      } else if spare !in w.cells {
        CreateKeeps(c, w, r, spare, now);
      }
    }
  }

  // ---- The level seen by one key -------------------------------------------------------

  /** The level a new request for the key at this rate would find. */
  function LevelFor(c: Config, w: World, key: string, rate: int, now: Time): int {
    Available(c, View(w), key, rate, now)
  }

  /** The requests for the key that are under way ask for this rate. */
  ghost predicate SameRate(w: World, key: string, rate: int) {
    forall r | r in w.flights && w.flights[r].key == key :: w.flights[r].rate == rate
  }

  /** If the janitor deletes the key's bucket, that bucket is full. */
  ghost predicate HarmlessStep(c: Config, w: World, s: Step, key: string, rate: int) {
    s.Janitor? && Usable(w, key, rate) && View(w)[key].lastSeen < s.now - c.idleTTL ==>
      Level(c, View(w)[key], s.now) == c.burst * TOKEN
  }

  lemma SetBucketView(c: Config, w: World, id: BucketId, b: Bucket, now: Time)
    requires WorldOk(c, w, now) && id in w.cells
    ensures
      var key := w.cells[id].key;
      View(SetBucket(w, id, b)) ==
        if key in w.current && w.current[key] == id then View(w)[key := b] else View(w)
  {
    var key, w' := w.cells[id].key, SetBucket(w, id, b);
    forall k | k in w.current && k != key ensures w.current[k] != id {
    }
    if key in w.current && w.current[key] == id {
      assert View(w').Keys == View(w)[key := b].Keys;
    } else {
      assert View(w').Keys == View(w).Keys;
    }
  }

  lemma TouchLeavesLevel(c: Config, w: World, r: RequestId, id: BucketId, key: string, rate: int, now: Time)
    requires WorldOk(c, w, now) && r in w.flights && id in w.cells
    ensures LevelFor(c, Touch(w, r, id), key, rate, now) == LevelFor(c, w, key, rate, now)
  {
    hide Refill;
    var b := w.cells[id].bucket.(lastSeen := w.flights[r].seen);
    SetBucketView(c, w, id, b, now);
    assert View(Touch(w, r, id)) == View(SetBucket(w, id, b));
  }

  lemma CreateViewAt(c: Config, w: World, r: RequestId, id: BucketId, k: string)
    requires k in w.current ==> w.current[k] in w.cells
    requires r in w.flights && id !in w.cells
    ensures
      var f, w' := w.flights[r], Create(c, w, r, id);
      if k == f.key then k in View(w') && View(w')[k] == Bucket(c.burst * TOKEN, f.seen, f.seen, f.rate)
      else (k in View(w') <==> k in View(w)) && (k in View(w) ==> View(w')[k] == View(w)[k])
  {
  }

  lemma CreateView(c: Config, w: World, r: RequestId, id: BucketId)
    requires forall key | key in w.current :: w.current[key] in w.cells
    requires r in w.flights && id !in w.cells
    ensures
      var f := w.flights[r];
      View(Create(c, w, r, id)) == View(w)[f.key := Bucket(c.burst * TOKEN, f.seen, f.seen, f.rate)]
  {
    hide View, Create;
    var f := w.flights[r];
    var m, m' := View(w)[f.key := Bucket(c.burst * TOKEN, f.seen, f.seen, f.rate)], View(Create(c, w, r, id));
    forall k ensures (k in m <==> k in m') && (k in m ==> m[k] == m'[k]) {
      CreateViewAt(c, w, r, id, k);
    }
    assert m.Keys == m'.Keys;
  }

  lemma NewBucketIsFull(c: Config, rate: int, seen: Time, now: Time)
    requires c.burst > 0 && rate > 0 && seen <= now
    ensures Level(c, Bucket(c.burst * TOKEN, seen, seen, rate), now) == c.burst * TOKEN
  {
    hide Refill;
    RefillGrows(rate, 0, now - seen);
  }

  lemma CreateLeavesLevel(c: Config, w: World, r: RequestId, id: BucketId, key: string, rate: int, now: Time)
    requires c.burst > 0 && rate > 0 && WorldOk(c, w, now) && SameRate(w, key, rate)
    requires CanEnter(w, r) && id !in w.cells && !Usable(w, w.flights[r].key, w.flights[r].rate)
    ensures LevelFor(c, Create(c, w, r, id), key, rate, now) == LevelFor(c, w, key, rate, now)
  {
    var f := w.flights[r];
    assert FlightOk(w, f, now);
    assert f.key == key ==> f.rate == rate;
    CreateView(c, w, r, id);
    hide Refill, Level, View, Create, WorldOk, SameRate, FlightOk;
    NewBucketIsFull(c, rate, f.seen, now);
  }

  lemma EnterLeavesLevel(c: Config, w: World, s: Step, key: string, rate: int)
    requires c.burst > 0 && rate > 0 && WorldOk(c, w, s.now) && SameRate(w, key, rate) && s.Enter?
    ensures LevelFor(c, After(c, w, s), key, rate, s.now) == LevelFor(c, w, key, rate, s.now)
  {
    if CanEnter(w, s.r) {
      var f := w.flights[s.r];
      assert FlightOk(w, f, s.now);
      var known := if f.found.Some? then f.found else if Usable(w, f.key, f.rate) then Some(w.current[f.key]) else None;
      if known.Some? {
        TouchLeavesLevel(c, w, s.r, known.value, key, rate, s.now);
      } else if s.spare !in w.cells {
        CreateLeavesLevel(c, w, s.r, s.spare, key, rate, s.now);
      }
    }
  }

  lemma JanitorLeavesLevel(c: Config, w: World, s: Step, key: string, rate: int)
    requires WorldOk(c, w, s.now) && s.Janitor? && HarmlessStep(c, w, s, key, rate)
    ensures LevelFor(c, After(c, w, s), key, rate, s.now) == LevelFor(c, w, key, rate, s.now)
  {
    hide Level;
    var m, m' := View(w), View(After(c, w, s));
    assert forall k | k in m' :: k in m && m'[k] == m[k];
    assert key in m && key !in m' ==> m[key].lastSeen < s.now - c.idleTTL;
  }

  lemma DrawTakes(c: Config, w: World, s: Step, key: string, rate: int)
    requires c.burst > 0 && rate > 0 && WorldOk(c, w, s.now) && SameRate(w, key, rate)
    requires s.Draw? && CanDraw(w, s.r)
    ensures LevelFor(c, After(c, w, s), key, rate, s.now)
         == LevelFor(c, w, key, rate, s.now) - TOKEN * (AdmitsHere(c, w, s, key) - StraysHere(c, w, s, key))
  {
    var f, b := w.flights[s.r], Held(w, s.r);
    assert FlightOk(w, f, s.now) && CellOk(c, b, s.now);
    hide AfterReserve, Answer, Refill;
    var b' := AfterReserve(c, b, s.now);
    DrawKeepsCell(c, b, s.now);
    SetBucketView(c, w, f.id, b', s.now);
    assert View(After(c, w, s)) == View(SetBucket(w, f.id, b'));
    RefillGrows(b.rpm, 0, s.now - b.last);
  }

  /** One step takes a token from the key's level exactly when it admits a request for the
      key from the key's own bucket. */
  lemma StepBalance(c: Config, w: World, s: Step, key: string, rate: int)
    requires c.burst > 0 && rate > 0 && WorldOk(c, w, s.now) && SameRate(w, key, rate)
    requires HarmlessStep(c, w, s, key, rate)
    ensures LevelFor(c, After(c, w, s), key, rate, s.now)
         == LevelFor(c, w, key, rate, s.now) - TOKEN * (AdmitsHere(c, w, s, key) - StraysHere(c, w, s, key))
  {
    match s
    case Lookup(_, _, _, _) => assert View(After(c, w, s)) == View(w);
    case Enter(_, _, _) => EnterLeavesLevel(c, w, s, key, rate);
    case Draw(r, _) =>
      if CanDraw(w, r) {
        DrawTakes(c, w, s, key, rate);
      }
    case Janitor(_) => JanitorLeavesLevel(c, w, s, key, rate);
  }

  // ---- The rate bound with strays ---------------------------------------------------------

  ghost predicate StepsWithin(steps: seq<Step>, from: Time, to: Time) {
    && from <= to
    && (forall i | 0 <= i < |steps| :: from <= steps[i].now <= to)
    && (forall i, j | 0 <= i <= j < |steps| :: steps[i].now <= steps[j].now)
  }

  /** Every request for the key is made at this rate. */
  ghost predicate LooksAtRate(steps: seq<Step>, key: string, rate: int) {
    forall i | 0 <= i < |steps| && steps[i].Lookup? && steps[i].key == key :: Rate(steps[i].rpm) == rate
  }

  ghost predicate HarmlessRun(c: Config, w: World, steps: seq<Step>, key: string, rate: int) {
    steps != [] ==>
      var front := steps[..|steps| - 1];
      HarmlessRun(c, w, front, key, rate) && HarmlessStep(c, RunSteps(c, w, front), steps[|steps| - 1], key, rate)
  }

  lemma StepsFront(steps: seq<Step>, key: string, rate: int, from: Time, to: Time)
    requires steps != [] && StepsWithin(steps, from, to) && LooksAtRate(steps, key, rate)
    ensures
      var front, s := steps[..|steps| - 1], steps[|steps| - 1];
      && StepsWithin(front, from, s.now) && LooksAtRate(front, key, rate) && from <= s.now <= to
      && (s.Lookup? && s.key == key ==> Rate(s.rpm) == rate)
  {
  }

  lemma WorldOkLater(c: Config, w: World, now: Time, t: Time)
    requires WorldOk(c, w, now) && now <= t
    ensures WorldOk(c, w, t)
  {
    forall r | r in w.flights ensures FlightOk(w, w.flights[r], t) {
      assert FlightOk(w, w.flights[r], now);
    }
  }

  lemma StepKeepsRate(c: Config, w: World, s: Step, key: string, rate: int)
    requires SameRate(w, key, rate) && (s.Lookup? && s.key == key ==> Rate(s.rpm) == rate)
    ensures SameRate(After(c, w, s), key, rate)
  {
  }

  lemma {:induction false} RunKeepsWorld(c: Config, w: World, steps: seq<Step>, from: Time, to: Time)
    requires c.burst > 0 && WorldOk(c, w, from) && StepsWithin(steps, from, to)
    ensures WorldOk(c, RunSteps(c, w, steps), to)
    decreases |steps|
  {
    if steps == [] {
      WorldOkLater(c, w, from, to);
    } else {
      var front, s := steps[..|steps| - 1], steps[|steps| - 1];
      hide WorldOk, After;
      RunKeepsWorld(c, w, front, from, s.now);
      StepKeepsWorld(c, RunSteps(c, w, front), s);
      WorldOkLater(c, RunSteps(c, w, steps), s.now, to);
    }
  }

  lemma LevelForGrows(c: Config, w: World, key: string, rate: int, now: Time, t: Time)
    requires rate > 0 && WorldOk(c, w, now) && now <= t
    ensures LevelFor(c, w, key, rate, t) == Min(c.burst * TOKEN, LevelFor(c, w, key, rate, now) + Refill(rate, t - now))
  {
    hide Refill, Level;
    RefillGrows(rate, 0, t - now);
    if Usable(w, key, rate) {
      assert CellOk(c, View(w)[key], now);
      LevelGrows(c, View(w)[key], now, t);
    }
  }

  lemma LevelForIsBounded(c: Config, w: World, key: string, rate: int, now: Time)
    requires c.burst > 0 && rate > 0 && WorldOk(c, w, now)
    ensures -rate < LevelFor(c, w, key, rate, now) <= c.burst * TOKEN
  {
    hide Refill;
    if Usable(w, key, rate) {
      assert CellOk(c, View(w)[key], now);
      RefillGrows(rate, 0, now - View(w)[key].last);
    }
  }

  /** What is admitted from the key's own buckets and what is left never exceed the burst
      and the refill. */
  lemma {:induction false} RacyBudget(c: Config, w: World, steps: seq<Step>, key: string, rate: int,
                                      from: Time, to: Time)
    requires c.burst > 0 && rate > 0 && WorldOk(c, w, from) && SameRate(w, key, rate)
    requires StepsWithin(steps, from, to) && LooksAtRate(steps, key, rate) && HarmlessRun(c, w, steps, key, rate)
    ensures SameRate(RunSteps(c, w, steps), key, rate)
    ensures (Admissions(c, w, steps, key) - Strays(c, w, steps, key)) * TOKEN
              + LevelFor(c, RunSteps(c, w, steps), key, rate, to)
         <= c.burst * TOKEN + Refill(rate, to - from)
    decreases |steps|
  {
    hide LevelFor, After, WorldOk, AdmitsHere, StraysHere, HarmlessStep, SameRate, Rate, Level, Refill;
    if steps == [] {
      LevelForIsBounded(c, w, key, rate, from);
      LevelForGrows(c, w, key, rate, from, to);
      RefillGrows(rate, 0, to - from);
    } else {
      var front, s := steps[..|steps| - 1], steps[|steps| - 1];
      var before := RunSteps(c, w, front);
      StepsFront(steps, key, rate, from, to);
      hide StepsWithin, LooksAtRate;
      RacyBudget(c, w, front, key, rate, from, s.now);
      RunKeepsWorld(c, w, front, from, s.now);
      StepBalance(c, before, s, key, rate);
      StepKeepsRate(c, before, s, key, rate);
      StepKeepsWorld(c, before, s);
      LevelForGrows(c, After(c, before, s), key, rate, s.now, to);
      RefillAdds(rate, s.now - from, to - s.now);
      assert (s.now - from) + (to - s.now) == to - from;
    }
  }

  // ---- Requests that do not stall -------------------------------------------------------

  /** A request enters the lock and draws within g of reading the clock. */
  ghost predicate PromptStep(w: World, s: Step, g: int) {
    (s.Enter? && CanEnter(w, s.r)) || (s.Draw? && CanDraw(w, s.r)) ==> s.now <= w.flights[s.r].seen + g
  }

  ghost predicate PromptRun(c: Config, w: World, steps: seq<Step>, g: int) {
    steps != [] ==>
      var front := steps[..|steps| - 1];
      PromptRun(c, w, front, g) && PromptStep(RunSteps(c, w, front), steps[|steps| - 1], g)
  }

  /** A bucket's stamp is not much older than its last draw, nor than what the requests
      that hold it have read. */
  ghost predicate StampsOk(w: World, g: int) {
    && (forall id | id in w.cells :: w.cells[id].bucket.last <= w.cells[id].bucket.lastSeen + 2 * g)
    && (forall r | r in w.flights && w.flights[r].Holding? && w.flights[r].id in w.cells ::
          w.flights[r].seen <= w.cells[w.flights[r].id].bucket.lastSeen + g)
  }

  lemma TouchKeepsStamps(c: Config, w: World, r: RequestId, id: BucketId, g: int, now: Time)
    requires g >= 0 && WorldOk(c, w, now) && StampsOk(w, g) && r in w.flights && Fits(w, id, w.flights[r])
    requires now <= w.flights[r].seen + g
    ensures StampsOk(Touch(w, r, id), g)
  {
    var w' := Touch(w, r, id);
    assert CellOk(c, w.cells[id].bucket, now);
    forall q | q in w'.flights && w'.flights[q].Holding? && w'.flights[q].id in w'.cells
      ensures w'.flights[q].seen <= w'.cells[w'.flights[q].id].bucket.lastSeen + g
    {
      assert q in w.flights && FlightOk(w, w.flights[q], now);
    }
  }

  lemma CreateKeepsStamps(c: Config, w: World, r: RequestId, id: BucketId, g: int, now: Time)
    requires g >= 0 && WorldOk(c, w, now) && StampsOk(w, g) && CanEnter(w, r) && id !in w.cells
    ensures StampsOk(Create(c, w, r, id), g)
  {
    var w' := Create(c, w, r, id);
    forall q | q in w'.flights && w'.flights[q].Holding? && w'.flights[q].id in w'.cells
      ensures w'.flights[q].seen <= w'.cells[w'.flights[q].id].bucket.lastSeen + g
    {
      assert q in w.flights && FlightOk(w, w.flights[q], now);
    }
  }

  lemma DrawKeepsStamps(c: Config, w: World, r: RequestId, g: int, now: Time)
    requires c.burst > 0 && g >= 0 && WorldOk(c, w, now) && StampsOk(w, g) && CanDraw(w, r)
    requires now <= w.flights[r].seen + g
    ensures StampsOk(After(c, w, Draw(r, now)), g)
  {
    hide AfterReserve, Answer;
    DrawKeepsCell(c, Held(w, r), now);
  }

  lemma StepKeepsStamps(c: Config, w: World, s: Step, g: int)
    requires c.burst > 0 && g >= 0 && WorldOk(c, w, s.now) && StampsOk(w, g) && PromptStep(w, s, g)
    ensures StampsOk(After(c, w, s), g)
  {
    match s
    case Enter(r, spare, now) =>
      if CanEnter(w, r) {
        var f := w.flights[r];
        assert FlightOk(w, f, now);
        var known := if f.found.Some? then f.found else if Usable(w, f.key, f.rate) then Some(w.current[f.key]) else None;
        if known.Some? {
          TouchKeepsStamps(c, w, r, known.value, g, now);
        } else if spare !in w.cells {
          CreateKeepsStamps(c, w, r, spare, g, now);
        }
      }
    case Draw(r, now) =>
      if CanDraw(w, r) {
        DrawKeepsStamps(c, w, r, g, now);
      }
    case _ =>
  }

  // ---- How much a bucket can be short of ---------------------------------------------------

  ghost predicate GridOk(w: World) {
    forall id | id in w.cells :: w.cells[id].bucket.rpm > 0 && OnGrid(w.cells[id].bucket.tokens, w.cells[id].bucket.rpm)
  }

  lemma LevelIsOnGrid(c: Config, b: Bucket, now: Time)
    requires c.burst > 0 && b.rpm > 0 && OnGrid(b.tokens, b.rpm)
    ensures OnGrid(Level(c, b, now), b.rpm)
  {
    hide OnGrid;
    BurstIsOnGrid(c.burst, b.rpm);
    RefillStaysOnGrid(b.tokens, b.rpm, if now > b.last then now - b.last else 0);
  }

  lemma DrawKeepsGrid(c: Config, b: Bucket, now: Time)
    requires c.burst > 0 && CellOk(c, b, now) && OnGrid(b.tokens, b.rpm)
    ensures OnGrid(AfterReserve(c, b, now).tokens, b.rpm)
  {
    hide OnGrid, AfterReserve, Answer, Level;
    DrawKeepsCell(c, b, now);
    LevelIsOnGrid(c, b, now);
    TakingStaysOnGrid(Level(c, b, now), b.rpm);
  }

  lemma StepKeepsGrid(c: Config, w: World, s: Step)
    requires c.burst > 0 && WorldOk(c, w, s.now) && GridOk(w)
    ensures GridOk(After(c, w, s))
  {
    hide OnGrid, AfterReserve;
    if s.Draw? && CanDraw(w, s.r) {
      DrawKeepsCell(c, Held(w, s.r), s.now);
      DrawKeepsGrid(c, Held(w, s.r), s.now);
    } else if s.Enter? && CanEnter(w, s.r) {
      assert FlightOk(w, w.flights[s.r], s.now);
      BurstIsOnGrid(c.burst, w.flights[s.r].rate);
    }
  }

  /** A bucket regains the whole burst in the time it is certain to be kept after its last
      draw, from the emptiest it can be. */
  predicate RefillsInSpiteOf(c: Config, rate: int, g: int)
    requires rate > 0
  {
    c.burst * TOKEN + MaxShortfall(rate) <= Refill(rate, c.idleTTL + 1 - 2 * g)
  }

  lemma PromptIsHarmless(c: Config, w: World, s: Step, key: string, rate: int, g: int)
    requires c.burst > 0 && rate > 0 && g >= 0 && WorldOk(c, w, s.now) && StampsOk(w, g) && GridOk(w)
    requires RefillsInSpiteOf(c, rate, g)
    ensures HarmlessStep(c, w, s, key, rate)
  {
    hide OnGrid, MaxShortfall;
    if s.Janitor? && Usable(w, key, rate) && View(w)[key].lastSeen < s.now - c.idleTTL {
      var b := View(w)[key];
      assert CellOk(c, b, s.now) && b.last <= b.lastSeen + 2 * g;
      hide Refill;
      ShortByAtMost(b.tokens, rate);
      RefillGrows(rate, c.idleTTL + 1 - 2 * g, s.now - b.last);
      FullByThen(c, b, s.now);
    }
  }

  lemma FullByThen(c: Config, b: Bucket, now: Time)
    requires b.rpm > 0 && b.last <= now && b.tokens + Refill(b.rpm, now - b.last) >= c.burst * TOKEN
    ensures Level(c, b, now) == c.burst * TOKEN
  {
    hide Refill;
    RefillGrows(b.rpm, 0, 0);
  }

  lemma {:induction false} PromptRunKeepsStamps(c: Config, w: World, steps: seq<Step>, g: int, from: Time, to: Time)
    requires c.burst > 0 && g >= 0 && WorldOk(c, w, from) && StampsOk(w, g)
    requires StepsWithin(steps, from, to) && PromptRun(c, w, steps, g)
    ensures StampsOk(RunSteps(c, w, steps), g)
    decreases |steps|
  {
    if steps != [] {
      var front, s := steps[..|steps| - 1], steps[|steps| - 1];
      hide WorldOk, After, StampsOk, PromptStep;
      PromptRunKeepsStamps(c, w, front, g, from, s.now);
      RunKeepsWorld(c, w, front, from, s.now);
      StepKeepsStamps(c, RunSteps(c, w, front), s, g);
    }
  }

  /** What the janitor deletes has not been drawn from for idleTTL - 2g. */
  lemma OnlyIdleIsDeleted(c: Config, steps: seq<Step>, key: string, g: int, start: Time, now: Time)
    requires c.burst > 0 && g >= 0 && StepsWithin(steps, start, now) && PromptRun(c, EMPTY, steps, g)
    ensures
      var w := RunSteps(c, EMPTY, steps);
      key in w.current && key !in After(c, w, Janitor(now)).current ==>
        key in View(w) && View(w)[key].last + (c.idleTTL + 1 - 2 * g) <= now
  {
    var w := RunSteps(c, EMPTY, steps);
    assert WorldOk(c, EMPTY, start) && StampsOk(EMPTY, g);
    hide RunSteps, PromptRun, StepsWithin, CellOk, FlightOk;
    RunKeepsWorld(c, EMPTY, steps, start, now);
    PromptRunKeepsStamps(c, EMPTY, steps, g, start, now);
  }

  lemma {:induction false} PromptRunIsHarmless(c: Config, w: World, steps: seq<Step>, key: string, rate: int, g: int,
                                               from: Time, to: Time)
    requires c.burst > 0 && rate > 0 && g >= 0 && WorldOk(c, w, from) && StampsOk(w, g) && GridOk(w)
    requires StepsWithin(steps, from, to) && RefillsInSpiteOf(c, rate, g) && PromptRun(c, w, steps, g)
    ensures HarmlessRun(c, w, steps, key, rate)
    ensures StampsOk(RunSteps(c, w, steps), g) && GridOk(RunSteps(c, w, steps))
    decreases |steps|
  {
    hide WorldOk, After, StampsOk, PromptStep, HarmlessStep, RefillsInSpiteOf, GridOk;
    PromptRunKeepsStamps(c, w, steps, g, from, to);
    if steps != [] {
      var front, s := steps[..|steps| - 1], steps[|steps| - 1];
      PromptRunIsHarmless(c, w, front, key, rate, g, from, s.now);
      RunKeepsWorld(c, w, front, from, s.now);
      PromptIsHarmless(c, RunSteps(c, w, front), s, key, rate, g);
      StepKeepsGrid(c, RunSteps(c, w, front), s);
    }
  }

  /** A run of steps in a window of time, after any history from the start, in which no
      request takes longer than g and every one for the key asks for the same rate. */
  ghost predicate RacyWindow(c: Config, history: seq<Step>, steps: seq<Step>, key: string, rate: int, g: int,
                             from: Time, to: Time) {
    && StepsWithin(history, if history == [] then from else history[0].now, from)
    && StepsWithin(steps, from, to) && LooksAtRate(steps, key, rate)
    && SameRate(RunSteps(c, EMPTY, history), key, rate)
    && PromptRun(c, EMPTY, history, g) && PromptRun(c, RunSteps(c, EMPTY, history), steps, g)
  }

  /** With requests that take at most g: in any window, after any history, at most the
      burst, what refills, and the requests that drew from a bucket the janitor had
      deleted under them. */
  lemma RateBoundWithStrays(c: Config, history: seq<Step>, steps: seq<Step>, key: string, rate: int, g: int,
                            from: Time, to: Time)
    requires c.burst > 0 && rate > 0 && g >= 0 && RefillsInSpiteOf(c, rate, g)
    requires RacyWindow(c, history, steps, key, rate, g, from, to)
    ensures
      var w := RunSteps(c, EMPTY, history);
      Admissions(c, w, steps, key) * TOKEN
        < c.burst * TOKEN + Refill(rate, to - from) + rate + Strays(c, w, steps, key) * TOKEN
  {
    var start := if history == [] then from else history[0].now;
    var w := RunSteps(c, EMPTY, history);
    assert WorldOk(c, EMPTY, start) && StampsOk(EMPTY, g) && GridOk(EMPTY);
    hide WorldOk, StampsOk, GridOk, After, PromptRun, Refill, RefillsInSpiteOf, HarmlessRun, LevelFor, Admissions, Strays;
    RunKeepsWorld(c, EMPTY, history, start, from);
    PromptRunIsHarmless(c, EMPTY, history, key, rate, g, start, from);
    PromptRunIsHarmless(c, w, steps, key, rate, g, from, to);
    RacyBudget(c, w, steps, key, rate, from, to);
    RunKeepsWorld(c, w, steps, from, to);
    LevelForIsBounded(c, RunSteps(c, w, steps), key, rate, to);
  }
}
