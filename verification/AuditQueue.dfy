/** The audit recorder: requests put events on a bounded queue without waiting, a
    worker gathers them into batches and writes each batch in one transaction, and
    Close flushes what is left. Each step below is one atomic action of a request or
    of the worker; they interleave freely. */
module AuditQueue {
  /** `encodable` is whether the event's metadata can be marshalled. */
  datatype Event = Event(id: nat, encodable: bool)

  /** A batch handed to flush, and whether its transaction committed. */
  datatype Flush = Flush(batch: seq<Event>, committed: bool)

  datatype State = State(
    queueSize: nat,
    flushSize: nat,
    queue: seq<Event>,
    batch: seq<Event>,
    dropped: nat,
    closed: bool,
    stopped: bool,
    log: seq<Event>,
    // What has happened, for the record.
    recorded: nat,
    accepted: seq<Event>,
    flushes: seq<Flush>)

  datatype Action =
    | Record(event: Event)
    | Receive(commits: bool)
    | Tick(commits: bool)
    | CloseChannel

  /** What Record does to the request that called it; sending on a closed channel is a
      panic in Go. */
  datatype Outcome = Queued | Dropped | Panicked

  // ---- Steps ------------------------------------------------------------------

  function WithDefault(n: int, default: nat): nat {
    if n <= 0 then default else n
  }

  function Started(queueSize: int, flushSize: int): State {
    State(WithDefault(queueSize, 1024), WithDefault(flushSize, 64), [], [], 0, false, false, [], 0, [], [])
  }

  /** The rows a batch contributes: an event that cannot be encoded is skipped. */
  function Encoded(batch: seq<Event>): seq<Event> {
    if batch == [] then []
    else
      var e := batch[|batch| - 1];
      Encoded(batch[..|batch| - 1]) + if e.encodable then [e] else []
  }

  function Flushed(s: State, commits: bool): State {
    if s.batch == [] then s
    else s.(batch := [], flushes := s.flushes + [Flush(s.batch, commits)],
            log := s.log + if commits then Encoded(s.batch) else [])
  }

  function OutcomeOf(s: State): Outcome {
    if s.closed then Panicked else if |s.queue| < s.queueSize then Queued else Dropped
  }

  function Next(s: State, a: Action): State {
    match a
    case Record(e) =>
      (match OutcomeOf(s)
       case Queued => s.(queue := s.queue + [e], accepted := s.accepted + [e], recorded := s.recorded + 1)
       case Dropped => s.(dropped := s.dropped + 1, recorded := s.recorded + 1)
       case Panicked => s)
    case Receive(commits) =>
      if s.stopped then s
      else if s.queue != [] then
        var gathered := s.(batch := s.batch + [s.queue[0]], queue := s.queue[1..]);
        if |gathered.batch| >= s.flushSize then Flushed(gathered, commits) else gathered
      else if s.closed then Flushed(s, commits).(stopped := true)
      else s
    case Tick(commits) => if s.stopped then s else Flushed(s, commits)
    case CloseChannel => s.(closed := true)
  }

  function Run(s: State, actions: seq<Action>): State {
    if actions == [] then s
    else Next(Run(s, actions[..|actions| - 1]), actions[|actions| - 1])
  }

  // ---- Conservation and order ---------------------------------------------------

  /** Every event handed to a flush, in order. */
  function Handed(flushes: seq<Flush>): seq<Event> {
    if flushes == [] then [] else Handed(flushes[..|flushes| - 1]) + flushes[|flushes| - 1].batch
  }

  /** The rows that the committed flushes left. */
  function Stored(flushes: seq<Flush>): seq<Event> {
    if flushes == [] then []
    else
      var last := flushes[|flushes| - 1];
      Stored(flushes[..|flushes| - 1]) + if last.committed then Encoded(last.batch) else []
  }

  /** Accepted events are those handed to a flush, then the batch, then the queue, in
      the order they were accepted; the log is what the committed flushes wrote. */
  ghost predicate Conserved(s: State) {
    && s.accepted == Handed(s.flushes) + (s.batch + s.queue)
    && s.log == Stored(s.flushes)
    && forall i | 0 <= i < |s.flushes| :: 0 < |s.flushes[i].batch| <= s.flushSize
  }

  ghost predicate Inv(s: State) {
    && 0 < s.queueSize && 0 < s.flushSize
    && Conserved(s)
    && s.recorded == |s.accepted| + s.dropped
    && |s.queue| <= s.queueSize && |s.batch| < s.flushSize
    && (s.stopped ==> s.closed && s.queue == [] && s.batch == [])
  }

  lemma FlushConserves(s: State, commits: bool)
    requires Conserved(s) && |s.batch| <= s.flushSize
    ensures Conserved(Flushed(s, commits)) && Flushed(s, commits).batch == []
  {
    if s.batch != [] {
      var flushes := s.flushes + [Flush(s.batch, commits)];
      assert flushes[..|flushes| - 1] == s.flushes;
      assert Handed(s.flushes) + (s.batch + s.queue) == (Handed(s.flushes) + s.batch) + ([] + s.queue);
    }
  }

  lemma StepKeepsInv(s: State, a: Action)
    requires Inv(s)
    ensures Inv(Next(s, a))
  {
    hide Handed, Stored, Encoded;
    match a
    case Record(e) =>
      assert (Handed(s.flushes) + (s.batch + s.queue)) + [e] == Handed(s.flushes) + (s.batch + (s.queue + [e]));
    case Receive(commits) =>
      if !s.stopped && s.queue != [] {
        var gathered := s.(batch := s.batch + [s.queue[0]], queue := s.queue[1..]);
        assert s.batch + s.queue == gathered.batch + gathered.queue;
        FlushConserves(gathered, commits);
      } else {
        FlushConserves(s, commits);
      }
    case Tick(commits) =>
      FlushConserves(s, commits);
    case CloseChannel =>
  }

  /** At every point of every run: nothing accepted is lost or reordered, every Record
      that returned is accounted for, and both bounds hold. */
  lemma {:induction false} RunConserves(queueSize: int, flushSize: int, actions: seq<Action>)
    ensures Inv(Run(Started(queueSize, flushSize), actions))
  {
    if actions != [] {
      RunConserves(queueSize, flushSize, actions[..|actions| - 1]);
      StepKeepsInv(Run(Started(queueSize, flushSize), actions[..|actions| - 1]), actions[|actions| - 1]);
    }
  }

  /** An event is dropped exactly when the recorder is open and its queue is full. */
  lemma DropsOnlyWhenFull(queueSize: int, flushSize: int, actions: seq<Action>)
    ensures
      var s := Run(Started(queueSize, flushSize), actions);
      OutcomeOf(s).Dropped? <==> !s.closed && |s.queue| == WithDefault(queueSize, 1024)
  {
    RunConserves(queueSize, flushSize, actions);
    SizesAreFixed(queueSize, flushSize, actions);
  }

  lemma {:induction false} SizesAreFixed(queueSize: int, flushSize: int, actions: seq<Action>)
    ensures
      var s, started := Run(Started(queueSize, flushSize), actions), Started(queueSize, flushSize);
      s.queueSize == started.queueSize && s.flushSize == started.flushSize
  {
    if actions != [] {
      SizesAreFixed(queueSize, flushSize, actions[..|actions| - 1]);
    }
  }

  /** Once the worker has stopped, every accepted event has been handed to exactly one
      flush, in order, and the log is the accepted events without the batches whose
      transaction failed and without those that cannot be encoded. */
  lemma StoppedMeansDrained(queueSize: int, flushSize: int, actions: seq<Action>)
    ensures var s := Run(Started(queueSize, flushSize), actions);
            s.stopped ==> s.accepted == Handed(s.flushes) && s.log == Stored(s.flushes) && s.queue == s.batch == []
  {
    RunConserves(queueSize, flushSize, actions);
  }

  lemma {:induction false} EncodedIsShorter(batch: seq<Event>)
    ensures |Encoded(batch)| <= |batch|
    ensures |Encoded(batch)| == |batch| <==> AllEncodable(batch)
    ensures AllEncodable(batch) ==> Encoded(batch) == batch
  {
    if batch != [] {
      EncodedIsShorter(batch[..|batch| - 1]);
      assert batch == batch[..|batch| - 1] + [batch[|batch| - 1]];
    }
  }

  ghost predicate AllCommitted(flushes: seq<Flush>) {
    forall f | f in flushes :: f.committed
  }

  ghost predicate AllEncodable(events: seq<Event>) {
    forall e | e in events :: e.encodable
  }

  lemma AllOfOneMore(flushes: seq<Flush>)
    requires flushes != []
    ensures var front, last := flushes[..|flushes| - 1], flushes[|flushes| - 1];
            && (AllCommitted(flushes) <==> AllCommitted(front) && last.committed)
            && (AllEncodable(Handed(flushes)) <==> AllEncodable(Handed(front)) && AllEncodable(last.batch))
  {
    var front, last := flushes[..|flushes| - 1], flushes[|flushes| - 1];
    assert flushes == front + [last];
    assert forall e :: e in Handed(flushes) <==> e in Handed(front) || e in last.batch;
  }

  lemma {:induction false} StoredIsShorter(flushes: seq<Flush>)
    requires forall i | 0 <= i < |flushes| :: flushes[i].batch != []
    ensures |Stored(flushes)| <= |Handed(flushes)|
    ensures |Stored(flushes)| == |Handed(flushes)| <==> AllCommitted(flushes) && AllEncodable(Handed(flushes))
    ensures |Stored(flushes)| == |Handed(flushes)| ==> Stored(flushes) == Handed(flushes)
  {
    if flushes != [] {
      var front, last := flushes[..|flushes| - 1], flushes[|flushes| - 1];
      StoredIsShorter(front);
      EncodedIsShorter(last.batch);
      AllOfOneMore(flushes);
      assert last.batch != [];
      hide AllCommitted, Encoded;
    }
  }

  /** The log is exactly the accepted events, in order, if and only if every flush
      committed and every accepted event could be encoded. */
  lemma NothingLostExactlyWhen(queueSize: int, flushSize: int, actions: seq<Action>)
    ensures var s := Run(Started(queueSize, flushSize), actions);
            s.stopped ==>
              (s.log == s.accepted <==> AllCommitted(s.flushes) && AllEncodable(s.accepted))
  {
    RunConserves(queueSize, flushSize, actions);
    var s := Run(Started(queueSize, flushSize), actions);
    if s.stopped {
      StoredIsShorter(s.flushes);
    }
  }

  /** What the worker still has to receive after the channel is closed. */
  function Left(s: State): nat {
    if s.stopped then 0 else |s.queue| + 1
  }

  /** After Close has closed the channel no step adds work, and each receive does some:
      Close returns after at most one receive per queued event and one more. */
  lemma CloseTerminates(s: State, a: Action)
    requires Inv(s) && s.closed
    ensures Next(s, a).closed && Left(Next(s, a)) <= Left(s)
    ensures a.Receive? && !s.stopped ==> Left(Next(s, a)) < Left(s)
  {
  }

  // ---- What the actions of a run come to -------------------------------------------

  /** The events of those Record actions that had this outcome, in order. */
  function EventsWith(s: State, actions: seq<Action>, outcome: Outcome): seq<Event> {
    if actions == [] then []
    else
      var front, a := actions[..|actions| - 1], actions[|actions| - 1];
      EventsWith(s, front, outcome) + if a.Record? && OutcomeOf(Run(s, front)) == outcome then [a.event] else []
  }

  /** The number of Record actions before the channel was closed. */
  function RecordsBeforeClose(actions: seq<Action>): nat {
    if actions == [] then 0
    else
      var front, a := actions[..|actions| - 1], actions[|actions| - 1];
      RecordsBeforeClose(front) + if a.Record? && CloseChannel !in front then 1 else 0
  }

  /** A Record panics exactly when the channel has been closed before, is dropped exactly
      when the queue is full, and otherwise queues its event. */
  lemma OutcomeExactly(queueSize: int, flushSize: int, actions: seq<Action>)
    ensures
      var s := Run(Started(queueSize, flushSize), actions);
      && (OutcomeOf(s).Panicked? <==> CloseChannel in actions)
      && (OutcomeOf(s).Dropped? <==> CloseChannel !in actions && |s.queue| == WithDefault(queueSize, 1024))
      && (OutcomeOf(s).Queued? <==> CloseChannel !in actions && |s.queue| < WithDefault(queueSize, 1024))
  {
    ActionsAreCounted(queueSize, flushSize, actions);
    DropsOnlyWhenFull(queueSize, flushSize, actions);
    RunConserves(queueSize, flushSize, actions);
    SizesAreFixed(queueSize, flushSize, actions);
  }

  /** The accepted events are those of the Record actions that queued theirs, in order; the
      dropped ones are counted, and every Record before the close is one or the other. */
  lemma {:induction false} ActionsAreCounted(queueSize: int, flushSize: int, actions: seq<Action>)
    ensures
      var started := Started(queueSize, flushSize);
      var s := Run(started, actions);
      && s.accepted == EventsWith(started, actions, Queued)
      && s.dropped == |EventsWith(started, actions, Dropped)|
      && s.recorded == s.dropped + |s.accepted| == RecordsBeforeClose(actions)
      && (s.closed <==> CloseChannel in actions)
  {
    if actions != [] {
      var front, a := actions[..|actions| - 1], actions[|actions| - 1];
      ActionsAreCounted(queueSize, flushSize, front);
      ActionIsCounted(Run(Started(queueSize, flushSize), front), a);
      assert actions == front + [a];
      hide Next, OutcomeOf;
    }
  }

  lemma ActionIsCounted(s: State, a: Action)
    ensures
      var s' := Next(s, a);
      && s'.accepted == s.accepted + (if a.Record? && OutcomeOf(s) == Queued then [a.event] else [])
      && s'.dropped == s.dropped + (if a.Record? && OutcomeOf(s) == Dropped then 1 else 0)
      && s'.recorded == s.recorded + (if a.Record? && !s.closed then 1 else 0)
      && s'.recorded - s.recorded == (s'.dropped - s.dropped) + (|s'.accepted| - |s.accepted|)
      && (s'.closed <==> s.closed || a == CloseChannel)
  {
  }

  /** The events that the worker has taken off the queue, in order. */
  function Taken(s: State): seq<Event> {
    Handed(s.flushes) + s.batch
  }

  /** A receive takes the oldest event off the queue, and hands a full batch to a flush, or
      after the close all that is left; its flush commits if the database does. */
  lemma ReceiveTakesTheOldest(s: State, commits: bool)
    requires Inv(s) && !s.stopped
    ensures
      var s' := Next(s, Receive(commits));
      && s'.queue == (if s.queue == [] then [] else s.queue[1..])
      && Taken(s') == Taken(s) + s.queue[..|s.queue| - |s'.queue|]
      && (s'.flushes == s.flushes || (|s'.flushes| == |s.flushes| + 1 && s'.flushes[|s.flushes|].committed == commits))
      && (s'.flushes != s.flushes ==> s'.batch == [] && s'.flushes[..|s.flushes|] == s.flushes)
      && (s'.flushes != s.flushes && s.queue != [] ==> |s'.flushes[|s.flushes|].batch| == s.flushSize)
      && (s'.stopped <==> s.closed && s.queue == [])
      && (s'.stopped ==> s'.batch == [])
  {
    hide Conserved, Encoded, Stored;
    var oldest := if s.queue == [] then [] else [s.queue[0]];
    var gathered := s.(batch := s.batch + oldest, queue := if s.queue == [] then [] else s.queue[1..]);
    assert s.queue[..|s.queue| - |gathered.queue|] == oldest;
    assert (Handed(s.flushes) + s.batch) + oldest == Handed(s.flushes) + gathered.batch;
    FlushHandsOver(gathered, commits);
    if s.queue == [] {
      assert gathered == s;
    }
  }

  lemma FlushHandsOver(s: State, commits: bool)
    ensures Taken(Flushed(s, commits)) == Taken(s) && Flushed(s, commits).batch == []
    ensures s.batch == [] ==> Flushed(s, commits) == s
    ensures s.batch != [] ==> Flushed(s, commits).flushes == s.flushes + [Flush(s.batch, commits)]
  {
    var s' := Flushed(s, commits);
    if s.batch != [] {
      assert s'.flushes[..|s'.flushes| - 1] == s.flushes;
    }
    assert Handed(s'.flushes) + [] == Handed(s'.flushes);
  }

  /** A tick hands over whatever has been gathered. */
  lemma TickHandsOver(s: State, commits: bool)
    requires Inv(s) && !s.stopped
    ensures
      var s' := Next(s, Tick(commits));
      && s'.batch == [] && s'.queue == s.queue && !s'.stopped && Taken(s') == Taken(s)
      && s'.flushes == s.flushes + if s.batch == [] then [] else [Flush(s.batch, commits)]
  {
    FlushHandsOver(s, commits);
  }

  /** Encoding a batch leaves out the events that cannot be encoded and nothing else. */
  lemma {:induction false} EncodedSkipsOnlyThose(a: seq<Event>, b: seq<Event>, e: Event)
    ensures Encoded(a + b) == Encoded(a) + Encoded(b)
    ensures Encoded([e]) == (if e.encodable then [e] else []) && Encoded([]) == []
  {
    assert [e][..0] == [];
    if b == [] {
      assert a + b == a;
    } else {
      var n := |b| - 1;
      assert (a + b)[..|a + b| - 1] == a + b[..n];
      EncodedSkipsOnlyThose(a, b[..n], e);
    }
  }

  // ---- The recorder as an object -------------------------------------------------

  class AuditRecorder {
    const queueSize: nat
    const flushSize: nat
    var events: seq<Event>
    var batch: seq<Event>
    var dropped: nat
    var closed: bool
    var stopped: bool
    var log: seq<Event>
    ghost var recorded: nat
    ghost var accepted: seq<Event>
    ghost var flushes: seq<Flush>

    constructor (queue: int, flush: int)
      ensures Abs() == Started(queue, flush) && Valid()
      ensures queueSize == (if queue > 0 then queue else 1024) && flushSize == if flush > 0 then flush else 64
    {
      queueSize := if queue <= 0 then 1024 else queue;
      flushSize := if flush <= 0 then 64 else flush;
      events, batch, dropped, closed, stopped, log := [], [], 0, false, false, [];
      recorded, accepted, flushes := 0, [], [];
    }

    ghost function Abs(): State
      reads this
    {
      State(queueSize, flushSize, events, batch, dropped, closed, stopped, log, recorded, accepted, flushes)
    }

    ghost predicate Valid()
      reads this
    {
      Inv(Abs())
    }

    /** A request records an event; it never waits. */
    method Record(e: Event) returns (outcome: Outcome)
      requires Valid()
      modifies this
      ensures Valid() && Abs() == Next(old(Abs()), Action.Record(e)) && outcome == OutcomeOf(old(Abs()))
      ensures events == old(events) + if outcome.Queued? then [e] else []
      ensures accepted == old(accepted) + if outcome.Queued? then [e] else []
      ensures dropped == old(dropped) + if outcome.Dropped? then 1 else 0
      ensures closed == old(closed) && (outcome.Panicked? <==> closed) && (outcome.Dropped? ==> |events| == queueSize)
    {
      StepKeepsInv(Abs(), Action.Record(e));
      if closed {
        return Panicked;
      }
      recorded := recorded + 1;
      if |events| < queueSize {
        events := events + [e];
        accepted := accepted + [e];
        return Queued;
      }
      dropped := dropped + 1;
      outcome := Dropped;
    }

    /** One transaction for the whole batch; `commits` is how the database answers. */
    method FlushBatch(commits: bool)
      modifies this
      ensures Abs() == Flushed(old(Abs()), commits)
    {
      if |batch| == 0 {
        return;
      }
      if commits {
        var rows: seq<Event> := [];
        for i := 0 to |batch|
          invariant rows == Encoded(batch[..i])
        {
          assert batch[..i + 1][..i] == batch[..i];
          if batch[i].encodable {
            rows := rows + [batch[i]];
          }
        }
        assert batch[..|batch|] == batch;
        log := log + rows;
      }
      flushes := flushes + [Flush(batch, commits)];
      batch := [];
    }

    /** The worker takes the receive branch of its select; `done` when it has returned. */
    method Receive(commits: bool) returns (done: bool)
      requires Valid() && !stopped && (events != [] || closed)
      modifies this
      ensures Valid() && Abs() == Next(old(Abs()), Action.Receive(commits)) && done == stopped
    {
      StepKeepsInv(Abs(), Action.Receive(commits));
      if |events| == 0 {
        FlushBatch(commits);
        stopped := true;
        return true;
      }
      batch, events := batch + [events[0]], events[1..];
      if |batch| >= flushSize {
        FlushBatch(commits);
      }
      done := false;
    }

    /** The worker takes the ticker branch. */
    method Tick(commits: bool)
      requires Valid() && !stopped
      modifies this
      ensures Valid() && Abs() == Next(old(Abs()), Action.Tick(commits))
    {
      StepKeepsInv(Abs(), Action.Tick(commits));
      if |batch| > 0 {
        FlushBatch(commits);
      }
    }

    /** Close the channel and wait for the worker. It may run twice. */
    method Close(answers: nat -> bool)
      requires Valid()
      modifies this
      ensures Valid() && stopped && closed
      ensures accepted == old(accepted) == Handed(flushes) && dropped == old(dropped)
    {
      StepKeepsInv(Abs(), CloseChannel);
      closed := true;
      var n := 0;
      while !stopped
        invariant Valid() && closed && accepted == old(accepted) && dropped == old(dropped)
        decreases Left(Abs())
      {
        var done := Receive(answers(n));
        n := n + 1;
      }
    }
  }
}
