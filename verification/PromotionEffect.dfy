/** What applying a promotion does: when its transaction commits, and what the
    target environment then holds. */
module PromotionEffect {
  import opened Outcomes
  import opened Envelope
  import opened Ordering
  import opened Schema
  import opened Transactions
  import opened Listing
  import opened PromotionPlan

  ghost predicate DistinctKeys(entries: seq<Entry>) {
    forall i, j | 0 <= i < j < |entries| :: entries[i].key != entries[j].key
  }

  ghost predicate Creates(entries: seq<Entry>, id: SecretId) {
    exists i | 0 <= i < |entries| :: entries[i].target.None? && entries[i].id == id
  }

  ghost predicate Mentions(entries: seq<Entry>, key: string) {
    exists i | 0 <= i < |entries| :: entries[i].key == key
  }

  /** The database never draws one identifier twice in the transaction. */
  ghost predicate DistinctDraws(entries: seq<Entry>) {
    forall i, j | 0 <= i < j < |entries| && entries[i].target.None? && entries[j].target.None? ::
      entries[i].id != entries[j].id
  }

  /** Nothing has happened since the plan was made that this entry depends on: its
      target is still live, or its key is still free. */
  ghost predicate Ready(t: Tables, environment: Uuid, e: Entry) {
    match e.target
    case Some(id) => Live(t, id)
    case None => e.id !in t.secrets && !KeyTaken(t, environment, e.key)
  }

  ghost predicate AllReady(t: Tables, environment: Uuid, entries: seq<Entry>) {
    forall i | 0 <= i < |entries| :: Ready(t, environment, entries[i])
  }

  /** The last entry beside the ones before it. */
  lemma SplitLast(master: Key, t: Tables, project: Uuid, environment: Uuid, entries: seq<Entry>)
    requires entries != []
    ensures
      var front, e := entries[..|entries| - 1], entries[|entries| - 1];
      && (AllAddressed(master, t, project, environment, entries)
          <==> AllAddressed(master, t, project, environment, front) && Addressed(master, t, project, environment, e))
      && (AllReady(t, environment, entries) <==> AllReady(t, environment, front) && Ready(t, environment, e))
      && (DistinctDraws(entries) <==> DistinctDraws(front) && (e.target.None? ==> !Creates(front, e.id)))
      && (DistinctKeys(entries) <==> DistinctKeys(front) && !Mentions(front, e.key))
  {
    var n := |entries| - 1;
    assert forall i | 0 <= i < n :: entries[..n][i] == entries[i];
  }

  // ---- All or nothing -------------------------------------------------------

  lemma {:induction false} RowsSurvive(t: Tables, project: Uuid, environment: Uuid, entries: seq<Entry>, id: SecretId)
    requires PromoteTx(t, project, environment, entries).Ok?
    ensures var t' := PromoteTx(t, project, environment, entries).value;
      && t'.environments == t.environments
      && (id in t.secrets ==>
            && id in t'.secrets && (Live(t', id) <==> Live(t, id))
            && IdentityOf(t'.secrets[id]) == IdentityOf(t.secrets[id]))
  {
    if entries != [] {
      RowsSurvive(t, project, environment, entries[..|entries| - 1], id);
    }
  }

  lemma OneLeavesOtherKeys(t: Tables, project: Uuid, environment: Uuid, e: Entry, key: string)
    requires PromoteOne(t, project, environment, e).Ok? && key != e.key
    ensures KeyTaken(PromoteOne(t, project, environment, e).value, environment, key) <==> KeyTaken(t, environment, key)
  {
    var t' := PromoteOne(t, project, environment, e).value;
    if KeyTaken(t, environment, key) {
      var x :| x in t.secrets && LiveKey(t, x, environment, key);
      assert LiveKey(t', x, environment, key);
    }
    if KeyTaken(t', environment, key) {
      var x :| x in t'.secrets && LiveKey(t', x, environment, key);
      assert LiveKey(t, x, environment, key);
    }
  }

  lemma {:induction false} OtherKeysUntouched(t: Tables, project: Uuid, environment: Uuid, entries: seq<Entry>,
                                              key: string)
    requires PromoteTx(t, project, environment, entries).Ok? && !Mentions(entries, key)
    ensures KeyTaken(PromoteTx(t, project, environment, entries).value, environment, key) <==> KeyTaken(t, environment, key)
  {
    if entries != [] {
      var n := |entries| - 1;
      var front, e := entries[..n], entries[n];
      assert forall i | 0 <= i < n :: front[i] == entries[i];
      OtherKeysUntouched(t, project, environment, front, key);
      OneLeavesOtherKeys(PromoteTx(t, project, environment, front).value, project, environment, e, key);
    }
  }

  lemma {:induction false} NewRowsAreTheCreated(t: Tables, project: Uuid, environment: Uuid, entries: seq<Entry>,
                                                id: SecretId)
    requires PromoteTx(t, project, environment, entries).Ok?
    ensures id in PromoteTx(t, project, environment, entries).value.secrets <==> id in t.secrets || Creates(entries, id)
  {
    if entries != [] {
      var n := |entries| - 1;
      var front, e := entries[..n], entries[n];
      assert forall i | 0 <= i < n :: front[i] == entries[i];
      NewRowsAreTheCreated(t, project, environment, front, id);
      assert Creates(entries, id) <==> Creates(front, id) || (e.target.None? && e.id == id);
    }
  }

  /** A promotion commits exactly when every entry is still as it was planned: each
      target secret is still live and each new key still free. Otherwise nothing is
      written (Committed of an error is the tables unchanged). */
  lemma {:induction false} CommitsExactlyWhenReady(master: Key, t: Tables, project: Uuid, environment: Uuid,
                                                   entries: seq<Entry>)
    requires AllAddressed(master, t, project, environment, entries) && DistinctKeys(entries)
    ensures PromoteTx(t, project, environment, entries).Ok?
       <==> AllReady(t, environment, entries) && DistinctDraws(entries)
  {
    if entries != [] {
      var n := |entries| - 1;
      var front, e := entries[..n], entries[n];
      SplitLast(master, t, project, environment, entries);
      assert environment in t.environments;
      hide AllAddressed, Mentions, Creates, DistinctKeys, DistinctDraws, AllReady;
      CommitsExactlyWhenReady(master, t, project, environment, front);
      if PromoteTx(t, project, environment, front).Ok? {
        var t1 := PromoteTx(t, project, environment, front).value;
        RowsSurvive(t, project, environment, front, Destination(e));
        OtherKeysUntouched(t, project, environment, front, e.key);
        NewRowsAreTheCreated(t, project, environment, front, e.id);
        assert Ready(t1, environment, e) <==> PromoteOne(t1, project, environment, e).Ok?;
      }
    }
  }

  // ---- The values afterwards ------------------------------------------------

  /** The value the entries leave under a key. */
  function Written(entries: seq<Entry>, key: string): Option<string> {
    if entries == [] then None
    else if entries[|entries| - 1].key == key then Some(entries[|entries| - 1].value)
    else Written(entries[..|entries| - 1], key)
  }

  lemma PushAllUnfolds(h: History, entries: seq<Entry>)
    requires entries != []
    ensures
      var front, e := entries[..|entries| - 1], entries[|entries| - 1];
      PushAll(h, entries) == Push(PushAll(h, front), Destination(e), e.value)
  {
  }

  lemma WrittenUnfolds(entries: seq<Entry>, key: string)
    requires entries != []
    ensures
      var front, e := entries[..|entries| - 1], entries[|entries| - 1];
      Written(entries, key) == if e.key == key then Some(e.value) else Written(front, key)
  {
  }

  lemma OneSetsItsKey(master: Key, t: Tables, h: History, project: Uuid, environment: Uuid, e: Entry)
    requires Sound(t) && Refines(master, t, h) && Addressed(master, t, project, environment, e)
    requires environment in t.environments && t.environments[environment].project == project
    requires PromoteOne(t, project, environment, e).Ok?
    ensures var t' := PromoteOne(t, project, environment, e).value;
            var h' := Push(h, Destination(e), e.value);
            && Sound(t') && Grows(t, t') && Refines(master, t', h')
            && LiveKey(t', Destination(e), environment, e.key)
            && Current(t', h', environment, e.key) == Some(e.value)
  {
    var t', h' := PromoteOne(t, project, environment, e).value, Push(h, Destination(e), e.value);
    if e.target.Some? {
      WriteTxRefines(master, t, h, e.target.value, 0, e.sealed, e.value);
    } else {
      CreateTxRefines(master, t, h, e.id, project, environment, e.key, e.sealed, e.value);
    }
    hide Sound, Refines, Grows;
    CurrentIsLast(master, t', h', environment, e.key, Destination(e));
  }

  lemma OneLeavesOtherRows(t: Tables, project: Uuid, environment: Uuid, e: Entry, environment': Uuid, key: string)
    requires PromoteOne(t, project, environment, e).Ok? && (environment', key) != (environment, e.key)
    requires e.target.Some? ==>
               e.target.value in t.secrets && IdentityOf(t.secrets[e.target.value]) == (project, environment, e.key)
    ensures var t' := PromoteOne(t, project, environment, e).value;
      && (forall x :: LiveKey(t', x, environment', key) <==> LiveKey(t, x, environment', key))
      && !LiveKey(t, Destination(e), environment', key)
  {
  }

  lemma OneLeavesOtherValues(master: Key, t: Tables, h: History, project: Uuid, environment: Uuid, e: Entry,
                             environment': Uuid, key: string)
    requires Sound(t) && Refines(master, t, h) && Addressed(master, t, project, environment, e)
    requires environment in t.environments && t.environments[environment].project == project
    requires PromoteOne(t, project, environment, e).Ok? && (environment', key) != (environment, e.key)
    ensures var t' := PromoteOne(t, project, environment, e).value;
            var h' := Push(h, Destination(e), e.value);
            h'.Keys == t'.secrets.Keys && Current(t', h', environment', key) == Current(t, h, environment', key)
  {
    hide *;
    OneSetsItsKey(master, t, h, project, environment, e);
    TargetIsAddressed(master, t, project, environment, e);
    OneLeavesOtherRows(t, project, environment, e, environment', key);
    var t', h' := PromoteOne(t, project, environment, e).value, Push(h, Destination(e), e.value);
    PushLeavesOthers(h, Destination(e), e.value);
    SameValue(master, t, h, t', h', environment', key);
  }

  lemma TargetIsAddressed(master: Key, t: Tables, project: Uuid, environment: Uuid, e: Entry)
    requires Addressed(master, t, project, environment, e) && PromoteOne(t, project, environment, e).Ok?
    ensures e.target.Some? ==>
              e.target.value in t.secrets && IdentityOf(t.secrets[e.target.value]) == (project, environment, e.key)
  {
  }

  lemma PushLeavesOthers(h: History, id: SecretId, value: string)
    ensures forall x | x in h && x != id :: x in Push(h, id, value) && Push(h, id, value)[x] == h[x]
  {
  }

  /** A key keeps its value if it belongs to the same rows and their lists are the same. */
  lemma SameValue(master: Key, t: Tables, h: History, t': Tables, h': History, environment: Uuid, key: string)
    requires Sound(t) && Refines(master, t, h) && Sound(t') && Refines(master, t', h')
    requires forall x :: LiveKey(t', x, environment, key) <==> LiveKey(t, x, environment, key)
    requires forall x | LiveKey(t, x, environment, key) :: x in h ==> x in h' && h'[x] == h[x]
    ensures h'.Keys == t'.secrets.Keys && Current(t', h', environment, key) == Current(t, h, environment, key)
  {
    assert h.Keys == t.secrets.Keys && h'.Keys == t'.secrets.Keys;
    hide Sound, Refines;
    if KeyTaken(t, environment, key) {
      var x :| x in t.secrets && LiveKey(t, x, environment, key);
      CurrentIsLast(master, t, h, environment, key, x);
      CurrentIsLast(master, t', h', environment, key, x);
    }
  }

  lemma OneSetsExactlyItsKey(master: Key, t: Tables, h: History, project: Uuid, environment: Uuid, e: Entry,
                             environment': Uuid, key: string)
    requires Sound(t) && Refines(master, t, h) && Addressed(master, t, project, environment, e)
    requires environment in t.environments && t.environments[environment].project == project
    requires PromoteOne(t, project, environment, e).Ok?
    ensures var t' := PromoteOne(t, project, environment, e).value;
            var h' := Push(h, Destination(e), e.value);
            && Sound(t') && Grows(t, t') && Refines(master, t', h')
            && Current(t', h', environment', key) ==
                 if (environment', key) == (environment, e.key) then Some(e.value)
                 else Current(t, h, environment', key)
  {
    OneSetsItsKey(master, t, h, project, environment, e);
    hide Sound, Grows, Addressed, PromoteOne;
    if (environment', key) != (environment, e.key) {
      OneLeavesOtherValues(master, t, h, project, environment, e, environment', key);
    }
  }

  /** After the transaction each written key of the target environment holds its
      written value, and every other key of every environment what it held before. */
  lemma {:induction false} PromoteSetsExactlyItsKeys(master: Key, t: Tables, h: History, project: Uuid,
                                                     environment: Uuid,
                                                     entries: seq<Entry>, environment': Uuid, key: string)
    requires Sound(t) && Refines(master, t, h) && AllAddressed(master, t, project, environment, entries)
    requires PromoteTx(t, project, environment, entries).Ok?
    ensures var t' := PromoteTx(t, project, environment, entries).value;
            var h' := PushAll(h, entries);
            && Sound(t') && Grows(t, t') && Refines(master, t', h')
            && Current(t', h', environment', key) ==
                 if environment' == environment && Written(entries, key).Some? then Written(entries, key)
                 else Current(t, h, environment', key)
  {
    PromoteTxRefines(master, t, h, project, environment, entries);
    assert environment in t.environments && t.environments[environment].project == project;
    assert h.Keys == t.secrets.Keys;
    hide Sound, Refines, Addressed, AllAddressed, Grows, Current, PromoteOne, Push, Extends, Live, LiveKey, KeyTaken;
    hide Mentions, Creates, AllReady, DistinctDraws, DistinctKeys;
    if entries != [] {
      var n := |entries| - 1;
      var front, e := entries[..n], entries[n];
      PromoteTxUnfolds(t, project, environment, entries);
      PushAllUnfolds(h, entries);
      WrittenUnfolds(entries, key);
      hide PromoteTx, PushAll, Written;
      SplitLast(master, t, project, environment, entries);
      var t1, h1 := PromoteTx(t, project, environment, front).value, PushAll(h, front);
      PromoteSetsExactlyItsKeys(master, t, h, project, environment, front, environment', key);
      StillAddressed(master, t, t1, project, environment, e);
      OneSetsExactlyItsKey(master, t1, h1, project, environment, e, environment', key);
    }
  }

  lemma StillAddressed(master: Key, t: Tables, t': Tables, project: Uuid, environment: Uuid, e: Entry)
    requires Grows(t, t') && Addressed(master, t, project, environment, e)
    requires environment in t.environments && t.environments[environment].project == project
    ensures Addressed(master, t', project, environment, e)
    ensures environment in t'.environments && t'.environments[environment].project == project
  {
  }

  // ---- The whole promotion ---------------------------------------------------

  ghost predicate KeyedList(values: seq<Resolved>) {
    && (forall i, j | 0 <= i < j < |values| :: Less(values[i].key, values[j].key))
    && (forall i | 0 <= i < |values| :: ValidKey(values[i].key))
  }

  lemma ListIsKeyed(master: Key, t: Tables, project: Uuid, environment: Uuid, values: seq<Resolved>)
    requires Sound(t) && Lists(master, t, project, environment, values)
    ensures KeyedList(values)
  {
    forall i | 0 <= i < |values| ensures ValidKey(values[i].key) {
      assert ResolvesTo(master, t, project, environment, values[i]);
    }
  }

  /** What is sealed from a plan is addressed to the target environment. */
  lemma PlanIsAddressed(master: Key, t: Tables, project: Uuid, environment: Uuid, source: seq<Resolved>,
                        target: seq<Resolved>, keys: seq<string>, draws: seq<Draw>, ids: seq<SecretId>)
    requires Sound(t) && KeyedList(source) && Lists(master, t, project, environment, target)
    requires environment in t.environments && t.environments[environment].project == project
    requires |draws| == |ids| == |ToApply(source, ByKey(target), keys)|
    ensures var entries := SealAll(master, project, environment, ToApply(source, ByKey(target), keys), draws, ids);
            AllAddressed(master, t, project, environment, entries) && DistinctKeys(entries)
  {
    var m := ByKey(target);
    var pendings := ToApply(source, m, keys);
    var entries := SealAll(master, project, environment, pendings, draws, ids);
    forall i | 0 <= i < |entries| ensures Addressed(master, t, project, environment, entries[i]) {
      var p := pendings[i];
      AppliedExactly(source, m, keys, p);
      DecryptInvertsEncrypt(master, master, p.source.value, SecretAAD(project, environment, p.source.key),
                            SecretAAD(project, environment, p.source.key), draws[i]);
      if p.target.Some? {
        var j :| 0 <= j < |target| && target[j] == m[p.source.key];
        assert ResolvesTo(master, t, project, environment, target[j]);
      }
    }
    AppliedInKeyOrder(source, m, keys);
    forall i, j | 0 <= i < j < |entries| ensures entries[i].key != entries[j].key {
      LessIsTotal(entries[i].key, entries[j].key);
    }
  }

  /** What the entries write under a key is the source's value there, when it is
      wanted and differs; the target map is the one the plan was made with. */
  lemma {:induction false} WrittenFromPlan(master: Key, project: Uuid, environment: Uuid, pendings: seq<Pending>,
                                           draws: seq<Draw>, ids: seq<SecretId>, key: string)
    requires |draws| == |ids| == |pendings|
    ensures var w := Written(SealAll(master, project, environment, pendings, draws, ids), key);
            && (w.Some? ==> exists p | p in pendings :: p.source.key == key && p.source.value == w.value)
            && (w.None? ==> forall p | p in pendings :: p.source.key != key)
  {
    if pendings != [] {
      var n := |pendings| - 1;
      var entries := SealAll(master, project, environment, pendings, draws, ids);
      assert entries[..n] == SealAll(master, project, environment, pendings[..n], draws[..n], ids[..n]);
      WrittenFromPlan(master, project, environment, pendings[..n], draws[..n], ids[..n], key);
      assert pendings == pendings[..n] + [pendings[n]];
    }
  }

  lemma PlanWrites(master: Key, t: Tables, h: History, project: Uuid, environment: Uuid, environment': Uuid,
                   source: seq<Resolved>, target: seq<Resolved>, keys: seq<string>, draws: seq<Draw>,
                   ids: seq<SecretId>, key: string)
    requires Sound(t) && Refines(master, t, h)
    requires Lists(master, t, project, environment, source) && Lists(master, t, project, environment', target)
    requires |draws| == |ids| == |ToApply(source, ByKey(target), keys)|
    ensures var entries := SealAll(master, project, environment', ToApply(source, ByKey(target), keys), draws, ids);
            var there := Current(t, h, environment, key);
            Written(entries, key) ==
              if Wanted(keys, key) && there.Some? && there != Current(t, h, environment', key) then there else None
  {
    ListAgreesWithHistory(master, t, h, project, environment, source, key);
    ListAgreesWithHistory(master, t, h, project, environment', target, key);
    hide Sound, Refines;
    PlanWritesFromLists(master, project, environment', source, ByKey(target), keys, draws, ids, key);
  }

  lemma PlanWritesFromLists(master: Key, project: Uuid, environment: Uuid, source: seq<Resolved>, target: map<string,
                            Resolved>,
                            keys: seq<string>, draws: seq<Draw>, ids: seq<SecretId>, key: string)
    requires forall i, j | 0 <= i < j < |source| :: Less(source[i].key, source[j].key)
    requires |draws| == |ids| == |ToApply(source, target, keys)|
    ensures var m := ByKey(source);
            Written(SealAll(master, project, environment, ToApply(source, target, keys), draws, ids), key) ==
              if Wanted(keys, key) && key in m && (key !in target || target[key].value != m[key].value)
              then Some(m[key].value) else None
  {
    var pendings := ToApply(source, target, keys);
    WrittenFromPlan(master, project, environment, pendings, draws, ids, key);
    forall p | p in pendings && p.source.key == key
      ensures Wanted(keys, key) && key in ByKey(source) && p.source == ByKey(source)[key]
      ensures key !in target || target[key].value != p.source.value
    {
      AppliedExactly(source, target, keys, p);
      OneRowPerKey(source, p.source);
    }
    if key in ByKey(source) {
      AppliedExactly(source, target, keys, Pending(ByKey(source)[key], Lookup(target, key)));
    }
  }

  lemma OneRowPerKey(values: seq<Resolved>, x: Resolved)
    requires x in values && forall i, j | 0 <= i < j < |values| :: Less(values[i].key, values[j].key)
    ensures x.key in ByKey(values) && ByKey(values)[x.key] == x
  {
    var i :| 0 <= i < |values| && values[i] == x;
    var j :| 0 <= j < |values| && values[j] == ByKey(values)[x.key];
    LessIsTotal(x.key, x.key);
  }

  function Gain(t: Tables, environment: Uuid, entries: seq<Entry>, id: SecretId): seq<string>
    requires id in t.secrets
  {
    var key := t.secrets[id].key;
    if LiveKey(t, id, environment, key) && Written(entries, key).Some? then [Written(entries, key).value] else []
  }

  lemma GainOfOneMore(master: Key, t: Tables, project: Uuid, environment: Uuid, entries: seq<Entry>, id: SecretId)
    requires entries != [] && id in t.secrets && PromoteTx(t, project, environment, entries).Ok?
    requires Sound(t) && Addressed(master, t, project, environment, entries[|entries| - 1])
    requires !Mentions(entries[..|entries| - 1], entries[|entries| - 1].key)
    ensures
      var front, e := entries[..|entries| - 1], entries[|entries| - 1];
      Gain(t, environment, entries, id) ==
        Gain(t, environment, front, id) + if Destination(e) == id then [e.value] else []
  {
    var front, e := entries[..|entries| - 1], entries[|entries| - 1];
    WriterIsTheSecret(master, t, project, environment, front, e, id);
    NotWritten(front, e.key);
  }

  lemma PushOneMore(h: History, id: SecretId, e: Entry, base: seq<string>, gain: seq<string>)
    requires id in h && h[id] == base + gain
    ensures id in Push(h, Destination(e), e.value)
    ensures Push(h, Destination(e), e.value)[id] == base + (gain + if Destination(e) == id then [e.value] else [])
  {
    assert (base + gain) + [e.value] == base + (gain + [e.value]);
    assert gain + [] == gain;
  }

  /** Each secret there before gains the value written under its key, or nothing. */
  lemma {:induction false} GainsAtMostOneVersion(master: Key, t: Tables, h: History, project: Uuid, environment: Uuid,
                                                 entries: seq<Entry>, id: SecretId)
    requires Sound(t) && AllAddressed(master, t, project, environment, entries) && DistinctKeys(entries)
    requires PromoteTx(t, project, environment, entries).Ok? && id in t.secrets && id in h
    ensures id in PushAll(h, entries) && PushAll(h, entries)[id] == h[id] + Gain(t, environment, entries, id)
  {
    if entries == [] {
      NothingGained(t, environment, id);
      assert h[id] + [] == h[id];
    } else {
      var n := |entries| - 1;
      var front, e := entries[..n], entries[n];
      SplitLast(master, t, project, environment, entries);
      hide Sound, AllAddressed, DistinctKeys, Gain, Addressed, Mentions, Creates, AllReady, DistinctDraws;
      GainOfOneMore(master, t, project, environment, entries, id);
      GainsAtMostOneVersion(master, t, h, project, environment, front, id);
      PushOneMore(PushAll(h, front), id, e, h[id], Gain(t, environment, front, id));
    }
  }

  lemma NothingGained(t: Tables, environment: Uuid, id: SecretId)
    requires id in t.secrets
    ensures Gain(t, environment, [], id) == []
  {
  }

  /** The entry that writes a secret is the one with its key. */
  lemma WriterIsTheSecret(master: Key, t: Tables, project: Uuid, environment: Uuid, front: seq<Entry>, e: Entry,
                          id: SecretId)
    requires Sound(t) && Addressed(master, t, project, environment, e) && id in t.secrets
    requires PromoteTx(t, project, environment, front).Ok?
    requires PromoteOne(PromoteTx(t, project, environment, front).value, project, environment, e).Ok?
    ensures Destination(e) == id <==> LiveKey(t, id, environment, e.key)
  {
    var t1 := PromoteTx(t, project, environment, front).value;
    RowsSurvive(t, project, environment, front, id);
    RowsSurvive(t, project, environment, front, Destination(e));
    if LiveKey(t, id, environment, e.key) {
      assert LiveKey(t1, id, environment, e.key);
      assert Live(t, id) && (e.target.Some? ==> Live(t, e.target.value));
    }
  }

  lemma {:induction false} NotWritten(entries: seq<Entry>, key: string)
    requires forall i | 0 <= i < |entries| :: entries[i].key != key
    ensures Written(entries, key) == None
  {
    if entries != [] {
      NotWritten(entries[..|entries| - 1], key);
    }
  }

  /** The inputs of one promotion whose reads and transaction see the same tables. */
  datatype Request = Request(
    project: Uuid, source: Uuid, target: Uuid, keys: seq<string>,
    sourceList: seq<Resolved>, targetList: seq<Resolved>, draws: seq<Draw>, ids: seq<SecretId>)

  function PendingsOf(r: Request): seq<Pending> {
    ToApply(r.sourceList, ByKey(r.targetList), r.keys)
  }

  function EntriesOf(master: Key, r: Request): seq<Entry>
    requires |r.draws| == |r.ids| == |PendingsOf(r)|
  {
    SealAll(master, r.project, r.target, PendingsOf(r), r.draws, r.ids)
  }

  ghost predicate Uninterrupted(master: Key, t: Tables, r: Request) {
    && r.source != r.target
    && r.target in t.environments && t.environments[r.target].project == r.project
    && Lists(master, t, r.project, r.source, r.sourceList)
    && Lists(master, t, r.project, r.target, r.targetList)
    && |r.draws| == |r.ids| == |PendingsOf(r)|
    && (forall i | 0 <= i < |r.ids| :: r.ids[i] !in t.secrets)
    && (forall i, j | 0 <= i < j < |r.ids| :: r.ids[i] != r.ids[j])
  }

  lemma PlannedIsReady(master: Key, t: Tables, project: Uuid, environment: Uuid, source: seq<Resolved>,
                       target: seq<Resolved>,
                       keys: seq<string>, p: Pending, draw: Draw, id: SecretId)
    requires Lists(master, t, project, environment, target) && id !in t.secrets
    requires p in ToApply(source, ByKey(target), keys)
    ensures Ready(t, environment, SealOne(master, project, environment, p, draw, id))
  {
    var key := p.source.key;
    AppliedExactly(source, ByKey(target), keys, p);
    ListCoversKeys(master, t, project, environment, target, key);
    if p.target.Some? {
      var j :| 0 <= j < |target| && target[j] == ByKey(target)[key];
      assert ResolvesTo(master, t, project, environment, target[j]);
    }
  }

  lemma UninterruptedIsReady(master: Key, t: Tables, r: Request)
    requires Sound(t) && Uninterrupted(master, t, r)
    ensures AllAddressed(master, t, r.project, r.target, EntriesOf(master, r)) && DistinctKeys(EntriesOf(master, r))
    ensures PromoteTx(t, r.project, r.target, EntriesOf(master, r)).Ok?
  {
    var entries, pendings := EntriesOf(master, r), PendingsOf(r);
    ListIsKeyed(master, t, r.project, r.source, r.sourceList);
    PlanIsAddressed(master, t, r.project, r.target, r.sourceList, r.targetList, r.keys, r.draws, r.ids);
    hide Sound, AllAddressed, DistinctKeys, Lists;
    forall i | 0 <= i < |entries| ensures Ready(t, r.target, entries[i]) {
      PlannedIsReady(master, t, r.project, r.target, r.sourceList, r.targetList, r.keys, pendings[i], r.draws[i], r.ids[i]);
    }
    CommitsExactlyWhenReady(master, t, r.project, r.target, entries);
  }

  /** The promotion's effect, with no writer in between: it commits; afterwards every
      wanted key of the source has the source's value in the target, and every other
      key of every environment, the source included, has the value it had. */
  lemma PromotionTakesEffect(master: Key, t: Tables, h: History, r: Request, environment: Uuid, key: string)
    requires Sound(t) && Refines(master, t, h) && Uninterrupted(master, t, r)
    ensures PromoteTx(t, r.project, r.target, EntriesOf(master, r)).Ok?
    ensures var t' := PromoteTx(t, r.project, r.target, EntriesOf(master, r)).value;
            var h' := PushAll(h, EntriesOf(master, r));
            && Sound(t') && Grows(t, t') && Refines(master, t', h')
            && Current(t', h', environment, key) ==
                 if environment == r.target && Wanted(r.keys, key) && Current(t, h, r.source, key).Some?
                 then Current(t, h, r.source, key)
                 else Current(t, h, environment, key)
  {
    UninterruptedIsReady(master, t, r);
    PlanWrites(master, t, h, r.project, r.source, r.target, r.sourceList, r.targetList, r.keys, r.draws, r.ids, key);
    hide Sound, Refines, Uninterrupted, AllAddressed, DistinctKeys, Grows;
    PromoteSetsExactlyItsKeys(master, t, h, r.project, r.target, EntriesOf(master, r), environment, key);
  }

  /** Promoting again, with the same keys, finds nothing to apply. */
  lemma PromotingAgainAppliesNothing(master: Key, t: Tables, h: History, r: Request, sourceList: seq<Resolved>,
                                     targetList: seq<Resolved>)
    requires Sound(t) && Refines(master, t, h) && Uninterrupted(master, t, r)
    requires var t' := Committed(t, PromoteTx(t, r.project, r.target, EntriesOf(master, r)));
             Lists(master, t', r.project, r.source, sourceList) && Lists(master, t', r.project, r.target, targetList)
    ensures ToApply(sourceList, ByKey(targetList), r.keys) == []
  {
    UninterruptedIsReady(master, t, r);
    var t', h' := PromoteTx(t, r.project, r.target, EntriesOf(master, r)).value, PushAll(h, EntriesOf(master, r));
    var pendings := ToApply(sourceList, ByKey(targetList), r.keys);
    if pendings != [] {
      var p := pendings[0];
      var key := p.source.key;
      AppliedExactly(sourceList, ByKey(targetList), r.keys, p);
      PromotionTakesEffect(master, t, h, r, r.source, key);
      PromotionTakesEffect(master, t, h, r, r.target, key);
      ListAgreesWithHistory(master, t', h', r.project, r.source, sourceList, key);
      ListAgreesWithHistory(master, t', h', r.project, r.target, targetList, key);
      OneRowPerKey(sourceList, p.source);
      assert false;
    }
  }
}
