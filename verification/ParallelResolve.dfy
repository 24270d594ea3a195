/** Decrypting an environment with a bounded pool of workers. Each row has its own
    task and its own slot; the first failure is kept and makes tasks that have not
    started decrypting give up. Steps of different tasks interleave freely. */
module ParallelResolve {
  import opened Outcomes
  import opened Envelope
  import opened Ordering
  import opened Schema
  import opened Listing

  /** One row of ListCurrentSecretValues. */
  datatype Row = Row(id: SecretId, key: string, version: nat, sealed: Sealed)

  datatype Job = Job(master: Key, project: Uuid, environment: Uuid, rows: seq<Row>, limit: nat)

  /** A task runs in two steps: look at the shared context, then decrypt. */
  datatype Task = Waiting | Started | Checked | Finished

  /** `cancelled` is whether the caller has given up: its context is done. */
  datatype Group = Group(next: nat, tasks: seq<Task>, slots: seq<Option<Resolved>>, error: Option<Error>, cancelled: bool)

  datatype Step = Spawn | Check(i: nat) | Work(i: nat) | CancelByCaller

  function OpenRow(j: Job, row: Row): Result<Resolved> {
    var value :- Decrypt(j.master, row.sealed, SecretAAD(j.project, j.environment, row.key));
    Ok(Resolved(row.id, row.key, value, row.version))
  }

  function Busy(tasks: seq<Task>): nat {
    if tasks == [] then 0
    else Busy(tasks[..|tasks| - 1]) + if tasks[|tasks| - 1].Started? || tasks[|tasks| - 1].Checked? then 1 else 0
  }

  function Init(j: Job): Group {
    Group(0, seq(|j.rows|, _ => Waiting), seq(|j.rows|, _ => None), None, false)
  }

  predicate Enabled(j: Job, g: Group, s: Step) {
    && |g.tasks| == |g.slots| == |j.rows|
    && match s
       case Spawn => g.next < |j.rows| && Busy(g.tasks) < j.limit
       case Check(i) => i < |j.rows| && g.tasks[i].Started?
       case Work(i) => i < |j.rows| && g.tasks[i].Checked?
       case CancelByCaller => !g.cancelled
  }

  function FirstError(g: Group, e: Error): Option<Error> {
    if g.error.Some? then g.error else Some(e)
  }

  function Next(j: Job, g: Group, s: Step): Group
    requires Enabled(j, g, s)
  {
    match s
    case Spawn => g.(next := g.next + 1, tasks := g.tasks[g.next := Started])
    case Check(i) =>
      if g.error.Some? || g.cancelled then g.(tasks := g.tasks[i := Finished], error := FirstError(g, Cancelled))
      else g.(tasks := g.tasks[i := Checked])
    case Work(i) =>
      (match OpenRow(j, j.rows[i])
       case Ok(x) => g.(tasks := g.tasks[i := Finished], slots := g.slots[i := Some(x)])
       case Err(e) => g.(tasks := g.tasks[i := Finished], error := FirstError(g, e)))
    case CancelByCaller => g.(cancelled := true)
  }

  /** The state a schedule leads to, if each of its steps is enabled in turn. */
  function Play(j: Job, schedule: seq<Step>): Option<Group> {
    if schedule == [] then Some(Init(j))
    else
      var before := Play(j, schedule[..|schedule| - 1]);
      var s := schedule[|schedule| - 1];
      if before.Some? && Enabled(j, before.value, s) then Some(Next(j, before.value, s)) else None
  }

  /** Every task has been spawned and has returned: Wait returns. */
  predicate Done(j: Job, g: Group) {
    g.next == |j.rows| && forall i | 0 <= i < |g.tasks| :: g.tasks[i].Finished?
  }

  predicate AllOpen(j: Job) {
    forall i | 0 <= i < |j.rows| :: OpenRow(j, j.rows[i]).Ok?
  }

  /** Opening some row gives this error. */
  ghost predicate IsRowError(j: Job, e: Error) {
    exists i :: 0 <= i < |j.rows| && OpenRow(j, j.rows[i]) == Err(e)
  }

  ghost predicate Orderly(j: Job, g: Group) {
    && g.next <= |j.rows| == |g.tasks| == |g.slots|
    && Busy(g.tasks) <= j.limit
    && (forall i | 0 <= i < |j.rows| :: i >= g.next <==> g.tasks[i].Waiting?)
    && (g.error.Some? ==> (g.cancelled && g.error.value == Cancelled) || IsRowError(j, g.error.value))
    && (forall i | 0 <= i < |j.rows| :: SlotIsRight(j, g, i))
  }

  /** A filled slot holds its own row's value; a task that has finished has filled its
      slot unless there was an error. */
  ghost predicate SlotIsRight(j: Job, g: Group, i: nat)
    requires i < |j.rows| == |g.tasks| == |g.slots|
  {
    && (g.slots[i].Some? ==> OpenRow(j, j.rows[i]) == Ok(g.slots[i].value))
    && (g.tasks[i].Finished? && g.error.None? ==> g.slots[i].Some?)
  }

  lemma {:induction false} BusyAfter(tasks: seq<Task>, i: nat, task: Task)
    requires i < |tasks|
    ensures Busy(tasks[i := task]) + Busy([tasks[i]]) == Busy(tasks) + Busy([task])
  {
    var n := |tasks| - 1;
    var front := tasks[..n];
    if i < n {
      BusyAfter(front, i, task);
      assert tasks[i := task][..n] == front[i := task];
    } else {
      assert tasks[i := task][..n] == front;
      assert [tasks[i]][..0] == [] && [task][..0] == [];
    }
  }

  lemma StepKeepsOrder(j: Job, g: Group, s: Step)
    requires Orderly(j, g) && Enabled(j, g, s)
    ensures Orderly(j, Next(j, g, s))
  {
    var g' := Next(j, g, s);
    if !s.CancelByCaller? {
      var i := if s.Spawn? then g.next else s.i;
      assert Busy([g.tasks[i]]) + j.limit >= 0;
      BusyAfter(g.tasks, i, g'.tasks[i]);
      assert g'.tasks == g.tasks[i := g'.tasks[i]];
    }
    forall k | 0 <= k < |j.rows| ensures SlotIsRight(j, g', k) {
      assert SlotIsRight(j, g, k);
    }
  }

  lemma {:induction false} ReachableIsOrderly(j: Job, g: Group, schedule: seq<Step>)
    requires Play(j, schedule) == Some(g)
    ensures Orderly(j, g)
    decreases |schedule|
  {
    if schedule == [] {
      NobodyBusy(|j.rows|);
      assert forall i | 0 <= i < |j.rows| :: SlotIsRight(j, g, i);
    } else {
      var front, s := schedule[..|schedule| - 1], schedule[|schedule| - 1];
      var before := Play(j, front).value;
      ReachableIsOrderly(j, before, front);
      StepKeepsOrder(j, before, s);
    }
  }

  lemma {:induction false} NobodyBusy(n: nat)
    ensures Busy(seq(n, _ => Waiting)) == 0
  {
    if n > 0 {
      NobodyBusy(n - 1);
      assert seq(n, _ => Waiting)[..n - 1] == seq(n - 1, _ => Waiting);
    }
  }

  // ---- Every schedule, one outcome ------------------------------------------

  /** At no point of any schedule are more than `limit` tasks at work. */
  lemma NeverMoreThanTheLimit(j: Job, g: Group, schedule: seq<Step>)
    requires Play(j, schedule) == Some(g)
    ensures Busy(g.tasks) <= j.limit
  {
    ReachableIsOrderly(j, g, schedule);
  }

  /** Every schedule that runs to the end agrees with opening the rows in order: without
      an error every row opens and slot i holds the value of row i, and unless the caller
      gave up there is an error exactly when some row does not open. */
  lemma ScheduleDoesNotMatter(j: Job, g: Group, schedule: seq<Step>)
    requires Play(j, schedule) == Some(g) && Done(j, g)
    ensures g.error.Some? ==> g.cancelled || !AllOpen(j)
    ensures g.error.Some? ==> (g.cancelled && g.error.value == Cancelled) || IsRowError(j, g.error.value)
    ensures g.error.None? ==> AllOpen(j) && |g.slots| == |j.rows|
    ensures g.error.None? ==>
      forall i | 0 <= i < |j.rows| :: g.slots[i] == Some(OpenRow(j, j.rows[i]).value)
  {
    ReachableIsOrderly(j, g, schedule);
    forall i | 0 <= i < |j.rows| && g.error.None?
      ensures OpenRow(j, j.rows[i]).Ok? && g.slots[i] == Some(OpenRow(j, j.rows[i]).value)
    {
      assert SlotIsRight(j, g, i) && g.tasks[i].Finished?;
    }
  }

  /** Work left: two steps for a task at work, three for one not yet spawned. */
  function Remaining(tasks: seq<Task>): nat {
    if tasks == [] then 0
    else Remaining(tasks[..|tasks| - 1]) +
         match tasks[|tasks| - 1]
         case Waiting => 3
         case Started => 2
         case Checked => 1
         case Finished => 0
  }

  lemma {:induction false} RemainingAfter(tasks: seq<Task>, i: nat, task: Task)
    requires i < |tasks|
    ensures Remaining(tasks[i := task]) + Remaining([tasks[i]]) == Remaining(tasks) + Remaining([task])
  {
    var n := |tasks| - 1;
    var front := tasks[..n];
    if i < n {
      RemainingAfter(front, i, task);
      assert tasks[i := task][..n] == front[i := task];
    } else {
      assert tasks[i := task][..n] == front;
      assert [tasks[i]][..0] == [] && [task][..0] == [];
    }
  }

  function LeftToDo(g: Group): nat {
    Remaining(g.tasks) + if g.cancelled then 0 else 1
  }

  /** The pool cannot stall and cannot run for ever: until it is done some step of its own
      is enabled, and every step leaves less to do. */
  lemma NeverStalls(j: Job, g: Group, schedule: seq<Step>)
    requires j.limit > 0 && Play(j, schedule) == Some(g) && !Done(j, g)
    ensures exists s :: Enabled(j, g, s) && !s.CancelByCaller?
    ensures forall s | Enabled(j, g, s) :: LeftToDo(Next(j, g, s)) < LeftToDo(g)
  {
    ReachableIsOrderly(j, g, schedule);
    if i :| 0 <= i < |g.tasks| && (g.tasks[i].Started? || g.tasks[i].Checked?) {
      var s := if g.tasks[i].Started? then Check(i) else Work(i);
      assert Enabled(j, g, s) && !s.CancelByCaller?;
    } else {
      NoneAtWork(g.tasks);
      assert Enabled(j, g, Spawn) && !Spawn.CancelByCaller?;
    }
    forall s | Enabled(j, g, s) && !s.CancelByCaller? ensures LeftToDo(Next(j, g, s)) < LeftToDo(g) {
      var i := if s.Spawn? then g.next else s.i;
      var task := Next(j, g, s).tasks[i];
      RemainingAfter(g.tasks, i, task);
      assert [g.tasks[i]][..0] == [] && [task][..0] == [];
    }
  }

  lemma {:induction false} NoneAtWork(tasks: seq<Task>)
    requires forall i | 0 <= i < |tasks| :: !tasks[i].Started? && !tasks[i].Checked?
    ensures Busy(tasks) == 0
  {
    if tasks != [] {
      NoneAtWork(tasks[..|tasks| - 1]);
    }
  }

  /** What an error, or the caller's giving up, stops: the first error stays, and a task that
      has not been let through to decrypt by then never fills its slot. */
  ghost predicate GivenUp(g: Group, g': Group) {
    && |g.tasks| == |g.slots| == |g'.tasks| == |g'.slots|
    && (g.error.Some? ==> g'.error == g.error) && (g.cancelled ==> g'.cancelled)
    && forall i | 0 <= i < |g.tasks| && (g.tasks[i].Waiting? || g.tasks[i].Started?) ::
         !g'.tasks[i].Checked? && g'.slots[i] == g.slots[i] && (g'.tasks[i].Finished? ==> g'.error.Some?)
  }

  lemma {:induction false} GivesUp(j: Job, a: seq<Step>, b: seq<Step>, g: Group, g': Group)
    requires Play(j, a) == Some(g) && (g.error.Some? || g.cancelled) && Play(j, a + b) == Some(g')
    ensures GivenUp(g, g')
    decreases |b|
  {
    ReachableIsOrderly(j, g, a);
    if b == [] {
      assert a + b == a;
    } else {
      var n := |b| - 1;
      assert (a + b)[..|a + b| - 1] == a + b[..n] && (a + b)[|a + b| - 1] == b[n];
      var g1 := Play(j, a + b[..n]).value;
      GivesUp(j, a, b[..n], g, g1);
      StepGivesUp(j, g, g1, b[n]);
    }
  }

  lemma StepGivesUp(j: Job, g: Group, g1: Group, s: Step)
    requires GivenUp(g, g1) && (g.error.Some? || g.cancelled) && Enabled(j, g1, s)
    ensures GivenUp(g, Next(j, g1, s))
  {
    hide OpenRow, Busy;
  }

  /** So a caller that gives up before some task has been let through gets an error. */
  lemma GivingUpIsAnError(j: Job, a: seq<Step>, b: seq<Step>, g: Group, g': Group, i: nat)
    requires Play(j, a) == Some(g) && g.cancelled && Play(j, a + b) == Some(g') && Done(j, g')
    requires i < |g.tasks| && (g.tasks[i].Waiting? || g.tasks[i].Started?)
    ensures g'.error.Some?
  {
    GivesUp(j, a, b, g, g');
    ReachableIsOrderly(j, g', a + b);
  }

  /** As many tasks as the limit allows do run side by side. */
  lemma {:induction false} LimitIsUsed(j: Job, n: nat)
    requires n <= j.limit && n <= |j.rows|
    ensures
      var g := Play(j, seq(n, _ => Spawn));
      g.Some? && Busy(g.value.tasks) == n == g.value.next
  {
    var schedule := seq(n, _ => Spawn);
    if n == 0 {
      assert schedule == [];
      NobodyBusy(|j.rows|);
    } else {
      assert schedule[..n - 1] == seq(n - 1, _ => Spawn);
      LimitIsUsed(j, n - 1);
      var g := Play(j, schedule[..n - 1]).value;
      ReachableIsOrderly(j, g, schedule[..n - 1]);
      BusyAfter(g.tasks, n - 1, Started);
      assert [g.tasks[n - 1]][..0] == [] && [Started][..0] == [];
    }
  }

  // ---- The list that is returned ----------------------------------------------

  /** What the query returns: each live secret of the environment once, with its newest
      version, in the order of their ids. */
  ghost predicate Selects(t: Tables, environment: Uuid, rows: seq<Row>) {
    && (forall i, k | 0 <= i < k < |rows| :: rows[i].id < rows[k].id)
    && (forall i | 0 <= i < |rows| :: SelectedRow(t, environment, rows[i]))
    && (forall id | Live(t, id) && t.secrets[id].environment == environment ::
          exists i :: 0 <= i < |rows| && rows[i].id == id)
  }

  ghost predicate SelectedRow(t: Tables, environment: Uuid, row: Row) {
    && LiveKey(t, row.id, environment, row.key)
    && IsNewest(t, row.id, row.version)
    && t.versions[VersionKey(row.id, row.version)] == row.sealed
  }

  ghost predicate InKeyOrder(xs: seq<Resolved>) {
    forall i, k | 0 <= i < k < |xs| :: !Less(xs[k].key, xs[i].key)
  }

  /** sort.Slice returns some rearrangement of the slots that is ascending by key. */
  ghost predicate SortedByKey(slots: seq<Resolved>, out: seq<Resolved>) {
    multiset(out) == multiset(slots) && InKeyOrder(out)
  }

  function Insert(x: Resolved, xs: seq<Resolved>): seq<Resolved> {
    if xs == [] || Less(x.key, xs[0].key) then [x] + xs else [xs[0]] + Insert(x, xs[1..])
  }

  lemma OrderedBefore(x: Resolved, xs: seq<Resolved>)
    requires InKeyOrder(xs) && xs != [] && Less(x.key, xs[0].key)
    ensures InKeyOrder([x] + xs)
  {
    forall k | 0 <= k < |xs| ensures !Less(xs[k].key, x.key) {
      LessIsTotal(xs[0].key, xs[0].key);
      if Less(xs[k].key, x.key) {
        LessIsTransitive(xs[k].key, x.key, xs[0].key);
      }
    }
  }

  lemma OrderedAfter(x: Resolved, xs: seq<Resolved>)
    requires InKeyOrder(xs) && forall y | y in xs :: !Less(y.key, x.key)
    ensures InKeyOrder([x] + xs)
  {
    assert forall k | 0 <= k < |xs| :: xs[k] in xs;
  }

  lemma {:induction false} InsertKeepsElements(x: Resolved, xs: seq<Resolved>)
    ensures multiset(Insert(x, xs)) == multiset(xs) + multiset{x}
    ensures forall y | y in Insert(x, xs) :: y == x || y in xs
  {
    if xs != [] {
      assert xs == [xs[0]] + xs[1..];
      InsertKeepsElements(x, xs[1..]);
    }
  }

  lemma {:induction false} InsertKeepsOrder(x: Resolved, xs: seq<Resolved>)
    requires InKeyOrder(xs)
    ensures InKeyOrder(Insert(x, xs))
  {
    if xs != [] {
      if Less(x.key, xs[0].key) {
        OrderedBefore(x, xs);
      } else {
        InsertKeepsOrder(x, xs[1..]);
        InsertKeepsElements(x, xs[1..]);
        forall y | y in xs[1..] ensures !Less(y.key, xs[0].key) {
          var k :| 0 <= k < |xs| - 1 && xs[1..][k] == y;
          assert xs[k + 1] == y;
        }
        OrderedAfter(xs[0], Insert(x, xs[1..]));
      }
    }
  }

  /** The sequential form: open the rows in order, stop at the first that fails, sort. */
  method ResolveInOrder(j: Job) returns (r: Result<seq<Resolved>>)
    ensures r.Ok? <==> AllOpen(j)
    ensures r.Err? ==> exists n :: 0 <= n < |j.rows| && OpenRow(j, j.rows[n]) == Err(r.error)
                               && forall i | 0 <= i < n :: OpenRow(j, j.rows[i]).Ok?
    ensures r.Ok? ==> exists slots ::
              && |slots| == |j.rows| && (forall i | 0 <= i < |slots| :: OpenRow(j, j.rows[i]) == Ok(slots[i]))
              && SortedByKey(slots, r.value)
  {
    var slots: seq<Resolved> := [];
    var sorted: seq<Resolved> := [];
    for n := 0 to |j.rows|
      invariant |slots| == n && forall i | 0 <= i < n :: OpenRow(j, j.rows[i]) == Ok(slots[i])
      invariant SortedByKey(slots, sorted)
    {
      var x := OpenRow(j, j.rows[n]);
      if x.Err? {
        return Err(x.error);
      }
      InsertKeepsElements(x.value, sorted);
      InsertKeepsOrder(x.value, sorted);
      slots, sorted := slots + [x.value], Insert(x.value, sorted);
    }
    r := Ok(sorted);
  }

  /** With the project the environment belongs to, every row opens: bulk reads and CI
      pulls never fail to decrypt. */
  lemma EveryRowOpens(j: Job, t: Tables, h: History)
    requires Sound(t) && Refines(j.master, t, h) && Selects(t, j.environment, j.rows)
    requires j.environment in t.environments && t.environments[j.environment].project == j.project
    ensures AllOpen(j)
    ensures forall i | 0 <= i < |j.rows| :: ResolvesTo(j.master, t, j.project, j.environment, OpenRow(j, j.rows[i]).value)
  {
    forall i | 0 <= i < |j.rows|
      ensures OpenRow(j, j.rows[i]).Ok? && ResolvesTo(j.master, t, j.project, j.environment, OpenRow(j, j.rows[i]).value)
    {
      var row := j.rows[i];
      BoundToItsIdentity(j.master, t, h, VersionKey(row.id, row.version), j.project, j.environment, row.key);
    }
  }

  /** Whatever the schedule and however the sort breaks ties, the pool returns the
      environment's list, the one list ListIsDetermined allows; only a caller that gives
      up gets an error instead. */
  lemma PoolReturnsTheList(j: Job, t: Tables, h: History, g: Group, schedule: seq<Step>, slots: seq<Resolved>,
                           out: seq<Resolved>)
    requires Sound(t) && Refines(j.master, t, h) && Selects(t, j.environment, j.rows)
    requires j.environment in t.environments && t.environments[j.environment].project == j.project
    requires Play(j, schedule) == Some(g) && Done(j, g)
    ensures g.error.Some? ==> g.cancelled
    ensures g.error.None? && HoldsSlots(g, slots) && SortedByKey(slots, out) ==>
      Lists(j.master, t, j.project, j.environment, out)
  {
    EveryRowOpens(j, t, h);
    ScheduleDoesNotMatter(j, g, schedule);
    if g.error.None? && HoldsSlots(g, slots) && SortedByKey(slots, out) {
      SlotsHoldTheRows(j, t, g, slots);
      hide Refines, Play, Done, AllOpen;
      SortedSlotsAreTheList(j, t, slots, out);
    }
  }

  lemma {:induction false} CanBeSorted(slots: seq<Resolved>) returns (out: seq<Resolved>)
    ensures SortedByKey(slots, out)
  {
    if slots == [] {
      out := [];
    } else {
      var n := |slots| - 1;
      var front := CanBeSorted(slots[..n]);
      assert slots == slots[..n] + [slots[n]];
      InsertKeepsElements(slots[n], front);
      InsertKeepsOrder(slots[n], front);
      out := Insert(slots[n], front);
    }
  }

  /** There is such a list, whenever the pool finishes without an error. */
  lemma PoolHasAnAnswer(j: Job, g: Group, schedule: seq<Step>) returns (slots: seq<Resolved>, out: seq<Resolved>)
    requires Play(j, schedule) == Some(g) && Done(j, g) && g.error.None?
    ensures HoldsSlots(g, slots) && SortedByKey(slots, out)
  {
    ScheduleDoesNotMatter(j, g, schedule);
    slots := seq(|g.slots|, i requires 0 <= i < |g.slots| => g.slots[i].value);
    out := CanBeSorted(slots);
  }

  /** The shared slice, once every slot is filled. */
  predicate HoldsSlots(g: Group, slots: seq<Resolved>) {
    |slots| == |g.slots| && forall i | 0 <= i < |slots| :: g.slots[i] == Some(slots[i])
  }

  ghost predicate Enumerates(j: Job, t: Tables, slots: seq<Resolved>) {
    && (forall i, k | 0 <= i < k < |slots| :: slots[i].id != slots[k].id)
    && (forall i | 0 <= i < |slots| :: ResolvesTo(j.master, t, j.project, j.environment, slots[i]))
    && (forall id | Live(t, id) && t.secrets[id].environment == j.environment ::
          exists i :: 0 <= i < |slots| && slots[i].id == id)
  }

  lemma SlotsHoldTheRows(j: Job, t: Tables, g: Group, slots: seq<Resolved>)
    requires AllOpen(j) && Selects(t, j.environment, j.rows)
    requires forall i | 0 <= i < |j.rows| :: ResolvesTo(j.master, t, j.project, j.environment, OpenRow(j, j.rows[i]).value)
    requires |slots| == |j.rows| && forall i | 0 <= i < |slots| :: slots[i] == OpenRow(j, j.rows[i]).value
    ensures Enumerates(j, t, slots)
  {
    forall i | 0 <= i < |slots|
      ensures slots[i].id == j.rows[i].id && ResolvesTo(j.master, t, j.project, j.environment, slots[i])
    {
    }
    hide ResolvesTo, OpenRow, SelectedRow;
    forall id | Live(t, id) && t.secrets[id].environment == j.environment
      ensures exists i :: 0 <= i < |slots| && slots[i].id == id
    {
      var i :| 0 <= i < |j.rows| && j.rows[i].id == id;
      assert slots[i].id == id;
    }
  }

  lemma SortedSlotsAreTheList(j: Job, t: Tables, slots: seq<Resolved>, out: seq<Resolved>)
    requires Sound(t) && Enumerates(j, t, slots) && SortedByKey(slots, out)
    ensures Lists(j.master, t, j.project, j.environment, out)
  {
    forall i | 0 <= i < |out| ensures ResolvesTo(j.master, t, j.project, j.environment, out[i]) {
      assert out[i] in multiset(out);
      var k :| 0 <= k < |slots| && slots[k] == out[i];
    }
    forall i, k | 0 <= i < k < |out| ensures Less(out[i].key, out[k].key) {
      LessIsTotal(out[i].key, out[k].key);
      if out[i].key == out[k].key {
        assert Live(t, out[i].id) && Live(t, out[k].id);
        ResolutionIsDetermined(j.master, t, j.project, j.environment, out[i], out[k]);
        TwiceInTheSort(slots, out, i, k);
      }
    }
    forall id | Live(t, id) && t.secrets[id].environment == j.environment
      ensures exists i :: 0 <= i < |out| && out[i].id == id
    {
      var i :| 0 <= i < |slots| && slots[i].id == id;
      assert slots[i] in multiset(slots);
      var k :| 0 <= k < |out| && out[k] == slots[i];
    }
  }

  lemma {:induction false} CountedTwice(s: seq<Resolved>, x: Resolved)
    requires multiset(s)[x] >= 2
    ensures exists a, b :: 0 <= a < b < |s| && s[a] == s[b]
  {
    assert s == [s[0]] + s[1..];
    if s[0] == x {
      assert x in multiset(s[1..]);
      var b :| 0 <= b < |s| - 1 && s[1..][b] == x;
      assert s[0] == s[b + 1];
    } else {
      CountedTwice(s[1..], x);
      var a, b :| 0 <= a < b < |s| - 1 && s[1..][a] == s[1..][b];
      assert s[a + 1] == s[b + 1];
    }
  }

  /** An element that is twice in the sorted slice was twice in the slots. */
  lemma TwiceInTheSort(slots: seq<Resolved>, out: seq<Resolved>, i: nat, k: nat)
    requires multiset(out) == multiset(slots) && i < k < |out| && out[i] == out[k]
    ensures exists a, b :: 0 <= a < b < |slots| && slots[a] == slots[b]
  {
    assert out == out[..k] + [out[k]] + out[k + 1..];
    assert out[..k][i] in multiset(out[..k]);
    CountedTwice(slots, out[i]);
  }
}
