/** What each transaction of the secret and promotion services commits, as a
    function of the tables it starts from. InTx is all-or-nothing: a transaction
    either yields the next tables or an error, and an error leaves them alone. */
module Transactions {
  import opened Outcomes
  import opened Envelope
  import opened Schema

  function Committed(t: Tables, outcome: Result<Tables>): Tables {
    if outcome.Ok? then outcome.value else t
  }

  /** Create: the key must be free among live secrets. `id` is the identifier the
      database draws. */
  function CreateTx(t: Tables, id: SecretId, project: Uuid, environment: Uuid, key: string,
                    sealed: Sealed): Result<Tables> {
    if id in t.secrets || KeyTaken(t, environment, key) then Err(Conflict)
    else if environment !in t.environments then Err(NotFound)
    else Ok(AddSecret(t, id, project, environment, key, sealed))
  }

  /** Update, and with `expected` zero also Rollback: append one version. A positive
      `expected` must still be the current version; a deleted secret then reports a
      mismatch, not a missing row. */
  function WriteTx(t: Tables, id: SecretId, expected: int, sealed: Sealed): Result<Tables> {
    if expected > 0 && !(Live(t, id) && t.secrets[id].current == expected) then Err(VersionMismatch)
    else if !Live(t, id) then Err(NotFound)
    else Ok(Append(t, id, sealed))
  }

  /** Delete: mark a live secret; anything else is left as it is. */
  function DeleteTx(t: Tables, id: SecretId): Tables {
    if Live(t, id) then t.(secrets := t.secrets[id := t.secrets[id].(deleted := true)]) else t
  }

  /** One write of a promotion: into the secret found in the target environment, or
      into a new one, for which the database draws `id`. */
  datatype Entry = Entry(key: string, value: string, target: Option<SecretId>, id: SecretId, sealed: Sealed)

  function Destination(e: Entry): SecretId {
    if e.target.Some? then e.target.value else e.id
  }

  function PromoteOne(t: Tables, project: Uuid, environment: Uuid, e: Entry): Result<Tables> {
    match e.target
    case Some(id) => WriteTx(t, id, 0, e.sealed)
    case None => CreateTx(t, e.id, project, environment, e.key, e.sealed)
  }

  function PromoteTx(t: Tables, project: Uuid, environment: Uuid, entries: seq<Entry>): Result<Tables> {
    if entries == [] then Ok(t)
    else
      var t1 :- PromoteTx(t, project, environment, entries[..|entries| - 1]);
      PromoteOne(t1, project, environment, entries[|entries| - 1])
  }

  lemma PromoteTxUnfolds(t: Tables, project: Uuid, environment: Uuid, entries: seq<Entry>)
    requires entries != [] && PromoteTx(t, project, environment, entries).Ok?
    ensures
      var front, e := entries[..|entries| - 1], entries[|entries| - 1];
      && PromoteTx(t, project, environment, front).Ok?
      && PromoteTx(t, project, environment, entries)
         == PromoteOne(PromoteTx(t, project, environment, front).value, project, environment, e)
  {
  }

  /** Once an entry has failed nothing after it can succeed. */
  lemma {:induction false} PromotePrefixFails(t: Tables, project: Uuid, environment: Uuid, entries: seq<Entry>, n: nat)
    requires n <= |entries| && PromoteTx(t, project, environment, entries[..n]).Err?
    ensures PromoteTx(t, project, environment, entries) == PromoteTx(t, project, environment, entries[..n])
  {
    if n == |entries| {
      assert entries[..n] == entries;
    } else {
      var front := entries[..|entries| - 1];
      assert front[..n] == entries[..n];
      PromotePrefixFails(t, project, environment, front, n);
    }
  }

  // ---- Every transaction keeps the invariants and refines the history -------

  /** Append a value to a secret's history, starting one where there is none. */
  function Push(h: History, id: SecretId, value: string): History {
    h[id := (if id in h then h[id] else []) + [value]]
  }

  function PushAll(h: History, entries: seq<Entry>): History {
    if entries == [] then h
    else
      var e := entries[|entries| - 1];
      Push(PushAll(h, entries[..|entries| - 1]), Destination(e), e.value)
  }

  lemma CreateTxRefines(master: Key, t: Tables, h: History, id: SecretId, project: Uuid, environment: Uuid,
                        key: string, sealed: Sealed, value: string)
    requires Sound(t) && Refines(master, t, h) && ValidKey(key)
    requires environment in t.environments && t.environments[environment].project == project
    requires Decrypt(master, sealed, SecretAAD(project, environment, key)) == Ok(value)
    requires CreateTx(t, id, project, environment, key, sealed).Ok?
    ensures var t' := CreateTx(t, id, project, environment, key, sealed).value;
            Sound(t') && Grows(t, t') && Refines(master, t', Push(h, id, value)) && id !in h
  {
    assert id !in h;
    assert [] + [value] == [value];
    hide Sound, Grows, Refines, AddSecret;
    AddSecretIsSound(t, id, project, environment, key, sealed);
    AddSecretRefines(master, t, h, id, project, environment, key, sealed, value);
  }

  lemma WriteTxRefines(master: Key, t: Tables, h: History, id: SecretId, expected: int, sealed: Sealed, value: string)
    requires Sound(t) && Refines(master, t, h)
    requires WriteTx(t, id, expected, sealed).Ok?
    requires Decrypt(master, sealed, AadOf(t.secrets[id])) == Ok(value)
    ensures var t' := WriteTx(t, id, expected, sealed).value;
            Sound(t') && Grows(t, t') && Refines(master, t', Push(h, id, value)) && id in h
  {
    AppendIsSound(t, id, sealed);
    hide Sound, Grows, Refines;
    AppendRefines(master, t, h, id, sealed, value);
  }

  lemma DeleteTxGrows(t: Tables, id: SecretId)
    ensures Grows(t, DeleteTx(t, id))
  {
  }

  lemma DeleteTxIsSound(t: Tables, id: SecretId)
    requires Sound(t)
    ensures Sound(DeleteTx(t, id)) && Grows(t, DeleteTx(t, id))
  {
    var t' := DeleteTx(t, id);
    LiveKeysStayUnique(t, t');
    DeleteTxGrows(t, id);
    hide LiveKeysAreUnique, Grows;
    assert VersionsAreContiguous(t') by {
      hide OwnersAgree;
    }
    hide VersionsAreContiguous;
  }

  lemma DeleteTxRefines(master: Key, t: Tables, h: History, id: SecretId)
    requires Refines(master, t, h)
    ensures Refines(master, DeleteTx(t, id), h)
  {
  }

  /** A delete takes a live secret away from every reader and frees its key; no other row,
      and no version, changes. Of anything but a live secret it changes nothing. */
  lemma DeleteTxDeletes(t: Tables, id: SecretId)
    requires LiveKeysAreUnique(t)
    ensures var t' := DeleteTx(t, id);
            && t'.environments == t.environments && t'.versions == t.versions
            && !Live(t', id)
            && (forall x :: x != id ==> (x in t'.secrets <==> x in t.secrets))
            && (forall x | x in t.secrets && x != id :: t'.secrets[x] == t.secrets[x])
            && (!Live(t, id) ==> t' == t)
            && (Live(t, id) ==> id in t'.secrets && !KeyTaken(t', t.secrets[id].environment, t.secrets[id].key))
  {
    var t' := DeleteTx(t, id);
    if Live(t, id) {
      forall x | x in t'.secrets ensures !LiveKey(t', x, t.secrets[id].environment, t.secrets[id].key) {
        assert Live(t', x) ==> Live(t, x) && Live(t, id);
      }
    }
  }

  /** So the key can be created again. */
  lemma DeletedKeyCanBeCreated(t: Tables, id: SecretId, newId: SecretId, sealed: Sealed)
    requires Sound(t) && Live(t, id) && newId !in t.secrets
    ensures var row := t.secrets[id];
            CreateTx(DeleteTx(t, id), newId, row.project, row.environment, row.key, sealed).Ok?
  {
    DeleteTxDeletes(t, id);
  }

  // ---- Promotion ------------------------------------------------------------

  /** The entry was sealed for this environment, and its target, if it has one, is
      a secret of this environment with the entry's key. */
  ghost predicate Addressed(master: Key, t: Tables, project: Uuid, environment: Uuid, e: Entry) {
    && ValidKey(e.key)
    && Decrypt(master, e.sealed, SecretAAD(project, environment, e.key)) == Ok(e.value)
    && (e.target.Some? ==>
          && e.target.value in t.secrets
          && IdentityOf(t.secrets[e.target.value]) == (project, environment, e.key))
  }

  ghost predicate AllAddressed(master: Key, t: Tables, project: Uuid, environment: Uuid, entries: seq<Entry>) {
    && environment in t.environments && t.environments[environment].project == project
    && forall i | 0 <= i < |entries| :: Addressed(master, t, project, environment, entries[i])
  }

  lemma AddressedIsStable(master: Key, t: Tables, t': Tables, project: Uuid, environment: Uuid, entries: seq<Entry>)
    requires Grows(t, t') && AllAddressed(master, t, project, environment, entries)
    ensures AllAddressed(master, t', project, environment, entries)
  {
  }

  lemma {:induction false} PromoteTxRefines(master: Key, t: Tables, h: History, project: Uuid, environment: Uuid,
                                            entries: seq<Entry>)
    requires Sound(t) && Refines(master, t, h) && AllAddressed(master, t, project, environment, entries)
    requires PromoteTx(t, project, environment, entries).Ok?
    ensures var t' := PromoteTx(t, project, environment, entries).value;
            Sound(t') && Grows(t, t') && Refines(master, t', PushAll(h, entries)) && Extends(h, PushAll(h, entries))
  {
    hide Sound, Refines, Grows;
    if entries == [] {
      GrowsReflexive(t);
    } else {
      var n := |entries| - 1;
      var front, e := entries[..n], entries[n];
      PromoteTxRefines(master, t, h, project, environment, front);
      var t1, h1 := PromoteTx(t, project, environment, front).value, PushAll(h, front);
      AddressedIsStable(master, t, t1, project, environment, entries);
      assert Addressed(master, t1, project, environment, e);
      if e.target.Some? {
        WriteTxRefines(master, t1, h1, e.target.value, 0, e.sealed, e.value);
      } else {
        CreateTxRefines(master, t1, h1, e.id, project, environment, e.key, e.sealed, e.value);
      }
      GrowsTransitive(t, t1, PromoteOne(t1, project, environment, e).value);
    }
  }
}
