/** The versions a promotion adds: one for each of its entries, a first one where the
    entry creates its secret, and no other. */
module PromotionVersions {
  import opened Outcomes
  import opened Envelope
  import opened Schema
  import opened Transactions
  import opened Listing
  import opened PromotionPlan
  import opened PromotionEffect

  // ---- Where the entries go ---------------------------------------------------

  /** The entry's secret is one of this environment, under the entry's key. */
  predicate WritesHome(t: Tables, project: Uuid, environment: Uuid, e: Entry) {
    Destination(e) in t.secrets && IdentityOf(t.secrets[Destination(e)]) == (project, environment, e.key)
  }

  lemma OneKeepsHome(t: Tables, project: Uuid, environment: Uuid, e: Entry, earlier: Entry)
    requires PromoteOne(t, project, environment, e).Ok? && WritesHome(t, project, environment, earlier)
    ensures WritesHome(PromoteOne(t, project, environment, e).value, project, environment, earlier)
  {
  }

  lemma TargetIsThere(master: Key, t: Tables, project: Uuid, environment: Uuid, e: Entry)
    requires Addressed(master, t, project, environment, e)
    ensures e.target.Some? ==> WritesHome(t, project, environment, e)
  {
  }

  lemma OneWritesItsEnvironment(t: Tables, project: Uuid, environment: Uuid, e: Entry)
    requires PromoteOne(t, project, environment, e).Ok? && (e.target.Some? ==> WritesHome(t, project, environment, e))
    ensures WritesHome(PromoteOne(t, project, environment, e).value, project, environment, e)
  {
  }

  lemma LastWritesItsEnvironment(master: Key, t: Tables, project: Uuid, environment: Uuid, entries: seq<Entry>)
    requires entries != [] && Addressed(master, t, project, environment, entries[|entries| - 1])
    requires PromoteTx(t, project, environment, entries).Ok?
    ensures WritesHome(PromoteTx(t, project, environment, entries).value, project, environment, entries[|entries| - 1])
  {
    var front, e := entries[..|entries| - 1], entries[|entries| - 1];
    PromoteTxUnfolds(t, project, environment, entries);
    TargetIsThere(master, t, project, environment, e);
    RowsSurvive(t, project, environment, front, Destination(e));
    hide PromoteTx, PromoteOne, Addressed;
    OneWritesItsEnvironment(PromoteTx(t, project, environment, front).value, project, environment, e);
  }

  /** It writes only secrets of its own environment, under the entries' keys. */
  lemma {:induction false} PromoteWritesItsEnvironment(master: Key, t: Tables, project: Uuid, environment: Uuid,
                                                       entries: seq<Entry>, i: nat)
    requires AllAddressed(master, t, project, environment, entries) && i < |entries|
    requires PromoteTx(t, project, environment, entries).Ok?
    ensures WritesHome(PromoteTx(t, project, environment, entries).value, project, environment, entries[i])
  {
    hide AllAddressed, Addressed, PromoteOne, AllReady, DistinctDraws, DistinctKeys, Mentions, Creates, WritesHome;
    var n := |entries| - 1;
    SplitLast(master, t, project, environment, entries);
    if i == n {
      LastWritesItsEnvironment(master, t, project, environment, entries);
    } else {
      PromoteTxUnfolds(t, project, environment, entries);
      hide PromoteTx;
      PromoteWritesItsEnvironment(master, t, project, environment, entries[..n], i);
      OneKeepsHome(PromoteTx(t, project, environment, entries[..n]).value, project, environment, entries[n], entries[i]);
    }
  }

  ghost predicate IsDestination(entries: seq<Entry>, id: SecretId) {
    exists i | 0 <= i < |entries| :: Destination(entries[i]) == id
  }

  ghost predicate DistinctDestinations(entries: seq<Entry>) {
    forall i, j | 0 <= i < j < |entries| :: Destination(entries[i]) != Destination(entries[j])
  }

  /** An entry without a target makes a secret of its own. */
  ghost predicate CreatesFresh(h: History, entries: seq<Entry>) {
    forall i | 0 <= i < |entries| :: Destination(entries[i]) in h <==> entries[i].target.Some?
  }

  /** No two entries of a promotion that commits go to the same secret. */
  lemma EntriesGoApart(master: Key, t: Tables, h: History, project: Uuid, environment: Uuid, entries: seq<Entry>)
    requires AllAddressed(master, t, project, environment, entries) && DistinctKeys(entries)
    requires PromoteTx(t, project, environment, entries).Ok? && h.Keys == t.secrets.Keys
    ensures DistinctDestinations(entries) && CreatesFresh(h, entries)
  {
    CommitsExactlyWhenReady(master, t, project, environment, entries);
    forall i | 0 <= i < |entries|
      ensures Destination(entries[i]) in h <==> entries[i].target.Some?
      ensures entries[i].target.Some? ==> IdentityOf(t.secrets[Destination(entries[i])]).2 == entries[i].key
    {
      assert Ready(t, environment, entries[i]) && Addressed(master, t, project, environment, entries[i]);
    }
  }

  // ---- What they add ------------------------------------------------------------

  /** The secret's list before the entry. */
  function Before(h: History, e: Entry): seq<string> {
    if Destination(e) in h then h[Destination(e)] else []
  }

  lemma {:induction false} NotPushed(h: History, entries: seq<Entry>, id: SecretId)
    requires !IsDestination(entries, id)
    ensures id in PushAll(h, entries) <==> id in h
    ensures id in h ==> PushAll(h, entries)[id] == h[id]
  {
    if entries != [] {
      var n := |entries| - 1;
      assert Destination(entries[n]) != id;
      assert forall i | 0 <= i < n :: entries[..n][i] == entries[i];
      NotPushed(h, entries[..n], id);
    }
  }

  /** Each entry extends its own secret's list by its value, once. */
  lemma {:induction false} PushedOnce(h: History, entries: seq<Entry>, i: nat)
    requires DistinctDestinations(entries) && i < |entries|
    ensures Destination(entries[i]) in PushAll(h, entries)
    ensures PushAll(h, entries)[Destination(entries[i])] == Before(h, entries[i]) + [entries[i].value]
  {
    var n := |entries| - 1;
    if i < n {
      PushedOnce(h, entries[..n], i);
    } else {
      NotPushed(h, entries[..n], Destination(entries[n]));
    }
  }

  /** The lists afterwards: each entry's secret has one value more, an entry that creates
      its secret the only one, and every other list is what it was. */
  ghost predicate OneVersionEach(h: History, h': History, entries: seq<Entry>) {
    && (forall i | 0 <= i < |entries| ::
          && Destination(entries[i]) in h'
          && h'[Destination(entries[i])] == Before(h, entries[i]) + [entries[i].value]
          && (entries[i].target.None? ==> Before(h, entries[i]) == []))
    && (forall id | !IsDestination(entries, id) ::
          (id in h' <==> id in h) && (id in h ==> h'[id] == h[id]))
  }

  lemma CommitAddsOneVersionEach(master: Key, t: Tables, h: History, project: Uuid, environment: Uuid,
                                 entries: seq<Entry>)
    requires AllAddressed(master, t, project, environment, entries) && DistinctKeys(entries)
    requires PromoteTx(t, project, environment, entries).Ok? && h.Keys == t.secrets.Keys
    ensures OneVersionEach(h, PushAll(h, entries), entries)
  {
    EntriesGoApart(master, t, h, project, environment, entries);
    hide AllAddressed, DistinctKeys, PromoteTx, PushAll;
    forall i | 0 <= i < |entries|
      ensures Destination(entries[i]) in PushAll(h, entries)
      ensures PushAll(h, entries)[Destination(entries[i])] == Before(h, entries[i]) + [entries[i].value]
    {
      PushedOnce(h, entries, i);
    }
    forall id | !IsDestination(entries, id)
      ensures id in PushAll(h, entries) <==> id in h
      ensures id in h ==> PushAll(h, entries)[id] == h[id]
    {
      NotPushed(h, entries, id);
    }
  }

  lemma FreshKeyAddsOne(versions: map<VersionKey, Sealed>, k: VersionKey, sealed: Sealed)
    requires k !in versions
    ensures |versions[k := sealed]| == |versions| + 1
  {
    assert versions[k := sealed].Keys == versions.Keys + {k};
    assert |versions[k := sealed].Keys| == |versions[k := sealed]| && |versions.Keys| == |versions|;
  }

  lemma OneAddsOneVersion(t: Tables, project: Uuid, environment: Uuid, e: Entry)
    requires VersionsAreContiguous(t) && PromoteOne(t, project, environment, e).Ok?
    ensures |PromoteOne(t, project, environment, e).value.versions| == |t.versions| + 1
  {
    var id := Destination(e);
    var k := VersionKey(id, if id in t.secrets then t.secrets[id].current + 1 else 1);
    assert k !in t.versions;
    assert PromoteOne(t, project, environment, e).value.versions == t.versions[k := e.sealed];
    hide PromoteOne, VersionsAreContiguous;
    FreshKeyAddsOne(t.versions, k, e.sealed);
  }

  lemma SoundIsContiguous(t: Tables)
    requires Sound(t)
    ensures VersionsAreContiguous(t)
  {
  }

  /** The table gains as many version rows as there are entries. */
  lemma {:induction false} AddsARowPerEntry(master: Key, t: Tables, h: History, project: Uuid, environment: Uuid,
                                            entries: seq<Entry>)
    requires Sound(t) && Refines(master, t, h) && AllAddressed(master, t, project, environment, entries)
    requires PromoteTx(t, project, environment, entries).Ok?
    ensures |PromoteTx(t, project, environment, entries).value.versions| == |t.versions| + |entries|
  {
    if entries != [] {
      var front := entries[..|entries| - 1];
      SplitLast(master, t, project, environment, entries);
      PromoteTxUnfolds(t, project, environment, entries);
      hide PromoteTx, PromoteOne, Sound, Refines, AllAddressed;
      AddsARowPerEntry(master, t, h, project, environment, front);
      PromoteTxRefines(master, t, h, project, environment, front);
      SoundIsContiguous(PromoteTx(t, project, environment, front).value);
      OneAddsOneVersion(PromoteTx(t, project, environment, front).value, project, environment, entries[|entries| - 1]);
    }
  }

  // ---- The whole promotion --------------------------------------------------------

  lemma {:induction false} WrittenIsTheEntry(entries: seq<Entry>, i: nat)
    requires DistinctKeys(entries) && i < |entries|
    ensures Written(entries, entries[i].key) == Some(entries[i].value)
  {
    if i < |entries| - 1 {
      WrittenIsTheEntry(entries[..|entries| - 1], i);
    }
  }

  /** A secret that was there gains one version when it is the live target of a wanted
      key whose source value differs, and none otherwise. */
  lemma OldSecretGains(master: Key, t: Tables, h: History, r: Request, id: SecretId)
    requires Sound(t) && Refines(master, t, h) && Uninterrupted(master, t, r) && id in t.secrets
    ensures id in PushAll(h, EntriesOf(master, r))
    ensures
      var key := t.secrets[id].key;
      var there, here := Current(t, h, r.source, key), Current(t, h, r.target, key);
      PushAll(h, EntriesOf(master, r))[id] == h[id] +
        if LiveKey(t, id, r.target, key) && Wanted(r.keys, key) && there.Some? && there != here then [there.value] else []
  {
    UninterruptedIsReady(master, t, r);
    var key := t.secrets[id].key;
    PlanWrites(master, t, h, r.project, r.source, r.target, r.sourceList, r.targetList, r.keys, r.draws, r.ids, key);
    assert id in h;
    hide Sound, Refines, Uninterrupted, AllAddressed, DistinctKeys;
    GainsAtMostOneVersion(master, t, h, r.project, r.target, EntriesOf(master, r), id);
  }

  lemma PlannedValue(master: Key, t: Tables, h: History, r: Request, key: string)
    requires Sound(t) && Refines(master, t, h) && Uninterrupted(master, t, r)
    ensures
      var there := Current(t, h, r.source, key);
      Written(EntriesOf(master, r), key) ==
        if Wanted(r.keys, key) && there.Some? && there != Current(t, h, r.target, key) then there else None
  {
    PlanWrites(master, t, h, r.project, r.source, r.target, r.sourceList, r.targetList, r.keys, r.draws, r.ids, key);
  }

  /** An entry that creates a secret carries the source's value of a wanted key that the
      target lacks. */
  lemma CreatingEntry(master: Key, t: Tables, h: History, r: Request, i: nat)
    requires Sound(t) && Refines(master, t, h) && Uninterrupted(master, t, r)
    requires i < |EntriesOf(master, r)| && EntriesOf(master, r)[i].target.None?
    ensures
      var e := EntriesOf(master, r)[i];
      && Wanted(r.keys, e.key) && Current(t, h, r.source, e.key) == Some(e.value)
      && Current(t, h, r.target, e.key) == None
  {
    var entries := EntriesOf(master, r);
    PlannedValue(master, t, h, r, entries[i].key);
    UninterruptedIsReady(master, t, r);
    hide Uninterrupted, EntriesOf;
    CommitsExactlyWhenReady(master, t, r.project, r.target, entries);
    WrittenIsTheEntry(entries, i);
    assert Ready(t, r.target, entries[i]);
  }

  /** The secret is the target environment's, for a wanted key that the source had and
      the target lacked, and the source's value is its one version. */
  ghost predicate IsAdded(t: Tables, h: History, r: Request, row: SecretRow, values: seq<string>)
    requires h.Keys == t.secrets.Keys
  {
    && IdentityOf(row) == (r.project, r.target, row.key)
    && Wanted(r.keys, row.key) && Current(t, h, r.target, row.key) == None
    && Current(t, h, r.source, row.key).Some? && values == [Current(t, h, r.source, row.key).value]
  }

  lemma NewSecretIsAdded(master: Key, t: Tables, h: History, r: Request, id: SecretId)
    requires Sound(t) && Refines(master, t, h) && Uninterrupted(master, t, r)
    requires PromoteTx(t, r.project, r.target, EntriesOf(master, r)).Ok?
    requires id !in h && id in PushAll(h, EntriesOf(master, r))
    ensures id in PromoteTx(t, r.project, r.target, EntriesOf(master, r)).value.secrets
    ensures IsAdded(t, h, r, PromoteTx(t, r.project, r.target, EntriesOf(master, r)).value.secrets[id],
                    PushAll(h, EntriesOf(master, r))[id])
  {
    var entries := EntriesOf(master, r);
    UninterruptedIsReady(master, t, r);
    CommitAddsOneVersionEach(master, t, h, r.project, r.target, entries);
    EntriesGoApart(master, t, h, r.project, r.target, entries);
    hide Sound, Refines, Uninterrupted, AllAddressed, DistinctKeys, PromoteTx, PushAll, EntriesOf, Current;
    var i :| 0 <= i < |entries| && Destination(entries[i]) == id;
    PromoteWritesItsEnvironment(master, t, r.project, r.target, entries, i);
    CreatingEntry(master, t, h, r, i);
    assert [] + [entries[i].value] == [entries[i].value];
  }

  /** The versions a promotion adds, with no writer in between: every added or changed
      key gains exactly one, which for an added key is version 1 of a new secret; every
      other secret, unchanged keys included, gains none; and the table gains one row for
      each entry applied. */
  lemma PromotionAddsOneVersionPerDifference(master: Key, t: Tables, h: History, r: Request, id: SecretId)
    requires Sound(t) && Refines(master, t, h) && Uninterrupted(master, t, r)
    ensures PromoteTx(t, r.project, r.target, EntriesOf(master, r)).Ok?
    ensures
      var t', h' := PromoteTx(t, r.project, r.target, EntriesOf(master, r)).value, PushAll(h, EntriesOf(master, r));
      && Refines(master, t', h') && |t'.versions| == |t.versions| + |EntriesOf(master, r)|
      && (id in t.secrets ==>
            var key := t.secrets[id].key;
            var there, here := Current(t, h, r.source, key), Current(t, h, r.target, key);
            && id in h'
            && h'[id] == h[id] +
                 if LiveKey(t, id, r.target, key) && Wanted(r.keys, key) && there.Some? && there != here
                 then [there.value] else [])
      && (id in t'.secrets && id !in t.secrets ==> IsAdded(t, h, r, t'.secrets[id], h'[id]))
  {
    var entries := EntriesOf(master, r);
    UninterruptedIsReady(master, t, r);
    PromoteTxRefines(master, t, h, r.project, r.target, entries);
    AddsARowPerEntry(master, t, h, r.project, r.target, entries);
    var t', h' := PromoteTx(t, r.project, r.target, entries).value, PushAll(h, entries);
    assert h.Keys == t.secrets.Keys && h'.Keys == t'.secrets.Keys;
    hide Sound, Refines, Uninterrupted, AllAddressed, DistinctKeys, PromoteTx, PushAll, Grows, Current, EntriesOf, IsAdded;
    if id in t.secrets {
      OldSecretGains(master, t, h, r, id);
    } else if id in t'.secrets {
      NewSecretIsAdded(master, t, h, r, id);
    }
  }

  /** Every wanted key that the source has and the target lacks gets a new secret, with
      the source's value as its one version. */
  lemma AddedKeyGetsASecret(master: Key, t: Tables, h: History, r: Request, key: string)
    requires Sound(t) && Refines(master, t, h) && Uninterrupted(master, t, r) && Wanted(r.keys, key)
    requires Current(t, h, r.source, key).Some? && Current(t, h, r.target, key).None?
    ensures PromoteTx(t, r.project, r.target, EntriesOf(master, r)).Ok?
    ensures
      var t', h' := PromoteTx(t, r.project, r.target, EntriesOf(master, r)).value, PushAll(h, EntriesOf(master, r));
      exists id :: id !in t.secrets && LiveKey(t', id, r.target, key)
        && id in h' && h'[id] == [Current(t, h, r.source, key).value]
  {
    var entries := EntriesOf(master, r);
    PromotionTakesEffect(master, t, h, r, r.target, key);
    var t', h' := PromoteTx(t, r.project, r.target, entries).value, PushAll(h, entries);
    assert KeyTaken(t', r.target, key);
    var id :| id in t'.secrets && LiveKey(t', id, r.target, key);
    if id in t.secrets {
      RowsSurvive(t, r.project, r.target, entries, id);
      CurrentIsLast(master, t, h, r.target, key, id);
      assert false;
    }
    PromotionAddsOneVersionPerDifference(master, t, h, r, id);
  }
}
