/** The store as an object: the three tables are fields, the SQL statements update
    them one at a time, and each transaction runs its statements and puts the
    tables back if one of them fails. Every transaction is proved to commit exactly
    what its specification in Transactions says. */
module VaultStore {
  import opened FiniteSets
  import opened Outcomes
  import opened Envelope
  import opened Schema
  import opened Transactions
  import opened Listing
  import opened ParallelResolve

  /** The rows selected while these secrets are still to come. */
  ghost predicate SelectedBut(t: Tables, environment: Uuid, rows: seq<Row>, left: set<SecretId>) {
    && (forall i, k | 0 <= i < k < |rows| :: rows[i].id < rows[k].id)
    && (forall i | 0 <= i < |rows| :: SelectedRow(t, environment, rows[i]))
    && (forall id | id in left :: Live(t, id) && t.secrets[id].environment == environment)
    && (forall i, id | 0 <= i < |rows| && id in left :: rows[i].id < id)
    && (forall id | Live(t, id) && t.secrets[id].environment == environment && id !in left :: HasRow(rows, id))
  }

  ghost predicate HasRow(rows: seq<Row>, id: SecretId) {
    exists i :: 0 <= i < |rows| && rows[i].id == id
  }

  lemma SelectOneMore(t: Tables, environment: Uuid, rows: seq<Row>, left: set<SecretId>, row: Row)
    requires SelectedBut(t, environment, rows, left) && SelectedRow(t, environment, row)
    requires row.id in left && forall id | id in left :: row.id <= id
    ensures SelectedBut(t, environment, rows + [row], left - {row.id})
  {
    var rows' := rows + [row];
    forall id | HasRow(rows, id) || id == row.id ensures HasRow(rows', id) {
      assert rows'[|rows|].id == row.id;
      if HasRow(rows, id) {
        var i :| 0 <= i < |rows| && rows[i].id == id;
        assert rows'[i].id == id;
      }
    }
  }

  class Store {
    var environments: map<Uuid, EnvironmentRow>
    var secrets: map<SecretId, SecretRow>
    var versions: map<VersionKey, Sealed>

    constructor ()
      ensures State() == Tables(map[], map[], map[]) && Valid()
    {
      environments, secrets, versions := map[], map[], map[];
    }

    function State(): Tables
      reads this
    {
      Tables(environments, secrets, versions)
    }

    ghost predicate Valid()
      reads this
    {
      Sound(State())
    }

    // ---- Statements ---------------------------------------------------------

    method CreateSecret(id: SecretId, project: Uuid, environment: Uuid, key: string) returns (r: Result<SecretId>)
      modifies this`secrets
      ensures r.Ok? <==> old(id !in secrets && !KeyTaken(State(), environment, key) && environment in environments)
      ensures r.Ok? ==> r.value == id
      ensures r.Err? ==> r.error == if old(id in secrets || KeyTaken(State(), environment, key)) then Conflict else NotFound
      ensures secrets == if r.Ok? then old(secrets)[id := SecretRow(project, environment, key, 0, false)] else old(secrets)
    {
      if id in secrets || KeyTaken(State(), environment, key) {
        return Err(Conflict);
      }
      if environment !in environments {
        return Err(NotFound);
      }
      secrets := secrets[id := SecretRow(project, environment, key, 0, false)];
      r := Ok(id);
    }

    /** Raise the counter of a live secret that is still at the expected version. */
    method BumpSecretVersion(id: SecretId, expected: int) returns (r: Option<nat>)
      modifies this`secrets
      ensures r.Some? <==> old(Live(State(), id) && secrets[id].current == expected)
      ensures r.Some? ==> r.value == old(secrets[id].current) + 1
      ensures secrets == if r.Some? then old(secrets)[id := old(secrets[id]).(current := r.value)] else old(secrets)
    {
      if Live(State(), id) && secrets[id].current == expected {
        var v := secrets[id].current + 1;
        secrets := secrets[id := secrets[id].(current := v)];
        return Some(v);
      }
      r := None;
    }

    method BumpSecretVersionUnchecked(id: SecretId) returns (r: Option<nat>)
      modifies this`secrets
      ensures r.Some? <==> old(Live(State(), id))
      ensures r.Some? ==> r.value == old(secrets[id].current) + 1
      ensures secrets == if r.Some? then old(secrets)[id := old(secrets[id]).(current := r.value)] else old(secrets)
    {
      if Live(State(), id) {
        var v := secrets[id].current + 1;
        secrets := secrets[id := secrets[id].(current := v)];
        return Some(v);
      }
      r := None;
    }

    method CreateSecretVersion(id: SecretId, version: nat, sealed: Sealed) returns (r: Result<()>)
      modifies this`versions
      ensures r.Ok? <==> old(VersionKey(id, version) !in versions && id in secrets)
      ensures versions == if r.Ok? then old(versions)[VersionKey(id, version) := sealed] else old(versions)
    {
      if VersionKey(id, version) in versions {
        return Err(Conflict);
      }
      if id !in secrets {
        return Err(NotFound);
      }
      versions := versions[VersionKey(id, version) := sealed];
      r := Ok(());
    }

    /** The two statements that add a version. */
    method AddVersion(id: SecretId, sealed: Sealed) returns (r: Option<nat>)
      requires id in secrets ==> VersionKey(id, secrets[id].current + 1) !in versions
      modifies this`secrets, this`versions
      ensures r.Some? <==> old(Live(State(), id))
      ensures r.Some? ==> r.value == old(secrets[id].current) + 1
      ensures State() == if r.Some? then Append(old(State()), id, sealed) else old(State())
    {
      r := BumpSecretVersionUnchecked(id);
      if r.Some? {
        var inserted := CreateSecretVersion(id, r.value, sealed);
        assert inserted.Ok?;  // the unique constraint cannot fire
      }
    }

    /** Roll back to the tables the transaction started from. */
    method Restore(before: Tables)
      modifies this
      ensures State() == before
    {
      environments, secrets, versions := before.environments, before.secrets, before.versions;
    }

    // ---- Queries --------------------------------------------------------------

    /** The secret's greatest version number. */
    method GetCurrentSecretVersion(id: SecretId) returns (r: Option<nat>)
      ensures r.Some? ==> IsNewest(State(), id, r.value)
      ensures r.None? ==> forall v: nat :: VersionKey(id, v) !in versions
    {
      r := None;
      var left := versions.Keys;
      while left != {}
        invariant left <= versions.Keys
        invariant r.Some? ==> VersionKey(id, r.value) in versions
        invariant forall v: nat | VersionKey(id, v) in versions ::
          VersionKey(id, v) in left || (r.Some? && v <= r.value)
        decreases |left|
      {
        var k :| k in left;
        left := left - {k};
        if k.secret == id && (r.None? || r.value < k.version) {
          r := Some(k.version);
        }
      }
    }

    /** Each live secret of the environment once, by id, with its newest version. */
    method ListCurrentSecretValues(environment: Uuid) returns (rows: seq<Row>)
      requires Valid()
      ensures Selects(State(), environment, rows)
    {
      rows := [];
      var left := set id | id in secrets && !secrets[id].deleted && secrets[id].environment == environment;
      while left != {}
        invariant SelectedBut(State(), environment, rows, left)
        decreases |left|
      {
        var id := First(left);
        var newest := GetCurrentSecretVersion(id);
        assert VersionKey(id, secrets[id].current) in versions;
        var row := Row(id, secrets[id].key, newest.value, versions[VersionKey(id, newest.value)]);
        SelectOneMore(State(), environment, rows, left, row);
        rows, left := rows + [row], left - {id};
      }
    }

    /** Reveal, with no other request in between: the last value of the secret. */
    method Reveal(master: Key, id: SecretId) returns (r: Result<string>)
      requires Valid()
      ensures forall h | Refines(master, State(), h) ::
        r == if Live(State(), id) then Ok(h[id][|h[id]| - 1]) else Err(NotFound)
    {
      if !Live(State(), id) {
        return Err(NotFound);
      }
      var newest := GetCurrentSecretVersion(id);
      if newest.None? {
        return Err(NotFound);
      }
      r := Decrypt(master, versions[VersionKey(id, newest.value)], AadOf(secrets[id]));
    }

    // ---- Transactions -------------------------------------------------------

    method Create(id: SecretId, project: Uuid, environment: Uuid, key: string,
                  sealed: Sealed) returns (r: Result<SecretId>)
      requires Valid() && ValidKey(key)
      requires environment in environments ==> environments[environment].project == project
      modifies this
      ensures Valid()
      ensures State() == Committed(old(State()), CreateTx(old(State()), id, project, environment, key, sealed))
      ensures r.Ok? <==> CreateTx(old(State()), id, project, environment, key, sealed).Ok?
      ensures r.Err? ==> r.error == CreateTx(old(State()), id, project, environment, key, sealed).error
      ensures r == if old(id in secrets || KeyTaken(State(), environment, key)) then Err(Conflict)
                   else if old(environment !in environments) then Err(NotFound) else Ok(id)
      ensures r.Err? ==> State() == old(State())
      ensures r.Ok? ==> LiveKey(State(), id, environment, key)
      ensures r.Ok? ==>
        forall master, h, value | Refines(master, old(State()), h)
          && Decrypt(master, sealed, SecretAAD(project, environment, key)) == Ok(value) ::
          Refines(master, State(), h[id := [value]])
    {
      var before := State();
      var inserted := CreateSecret(id, project, environment, key);
      if inserted.Err? {
        Restore(before);
        return Err(inserted.error);
      }
      AddSecretIsSound(before, id, project, environment, key, sealed);
      var version := CreateSecretVersion(id, 1, sealed);
      assert version.Ok?;  // the unique constraint cannot fire
      var bumped := BumpSecretVersionUnchecked(id);
      assert bumped.Some?;
      assert State() == AddSecret(before, id, project, environment, key, sealed);
      r := Ok(id);
      hide Sound;
      forall master, h, value | Refines(master, before, h)
          && Decrypt(master, sealed, SecretAAD(project, environment, key)) == Ok(value)
        ensures Refines(master, State(), h[id := [value]])
      {
        AddSecretRefines(master, before, h, id, project, environment, key, sealed, value);
      }
    }

    /** Update, and with `expected` zero Rollback: bump, then insert. */
    method Write(id: SecretId, expected: int, sealed: Sealed) returns (r: Result<nat>)
      requires Valid()
      modifies this
      ensures Valid()
      ensures State() == Committed(old(State()), WriteTx(old(State()), id, expected, sealed))
      ensures r.Ok? <==> WriteTx(old(State()), id, expected, sealed).Ok?
      ensures r.Ok? ==> r.value == old(secrets[id].current) + 1 == secrets[id].current
      ensures r.Err? ==> r.error == WriteTx(old(State()), id, expected, sealed).error
    {
      ghost var before := State();
      if id in secrets {
        AppendIsSound(before, id, sealed);
      }
      if expected > 0 {
        var bumped := BumpSecretVersion(id, expected);
        if bumped.None? {
          return Err(VersionMismatch);
        }
        var inserted := CreateSecretVersion(id, bumped.value, sealed);
        assert inserted.Ok?;  // the unique constraint cannot fire
        assert State() == Append(before, id, sealed);
        return Ok(bumped.value);
      }
      var version := AddVersion(id, sealed);
      if version.None? {
        return Err(NotFound);
      }
      r := Ok(version.value);
    }

    method SoftDelete(id: SecretId)
      requires Valid()
      modifies this
      ensures Valid()
      ensures State() == DeleteTx(old(State()), id)
      ensures !Live(State(), id) && versions == old(versions) && environments == old(environments)
      ensures old(Live(State(), id)) ==> !KeyTaken(State(), old(secrets[id].environment), old(secrets[id].key))
      ensures secrets == if old(Live(State(), id)) then old(secrets)[id := old(secrets[id]).(deleted := true)]
                         else old(secrets)
    {
      DeleteTxIsSound(State(), id);
      DeleteTxDeletes(State(), id);
      if Live(State(), id) {
        secrets := secrets[id := secrets[id].(deleted := true)];
      }
    }

    // ---- Whole requests, with no other in between ------------------------------

    /** Update: the value is sealed under the identity that was read, and becomes the
        last of the secret's list. */
    method Update(master: Key, id: SecretId, value: string, expected: int, draw: Draw) returns (r: Result<nat>)
      requires Valid()
      modifies this
      ensures Valid()
      ensures r == if !old(Live(State(), id)) then Err(NotFound)
                   else if expected > 0 && expected != old(secrets[id].current) then Err(VersionMismatch)
                   else Ok(old(secrets[id].current) + 1)
      ensures r.Err? ==> State() == old(State())
      ensures r.Ok? ==> forall h | Refines(master, old(State()), h) :: Refines(master, State(), h[id := h[id] + [value]])
    {
      if !Live(State(), id) {
        return Err(NotFound);
      }
      ghost var before := State();
      var sealed := Encrypt(master, value, AadOf(secrets[id]), draw);
      r := Write(id, expected, sealed);
      hide Sound;
      forall h | r.Ok? && Refines(master, before, h) ensures Refines(master, State(), h[id := h[id] + [value]]) {
        AppendRefines(master, before, h, id, sealed, value);
      }
    }

    /** Rollback: the stored row is copied, and entry `version` of the secret's list
        becomes its last as well. */
    method Rollback(ghost master: Key, id: SecretId, version: int) returns (r: Result<nat>)
      requires Valid()
      modifies this
      ensures Valid()
      ensures r == if !old(Live(State(), id)) then Err(NotFound)
                   else if version == old(secrets[id].current) then Err(Invalid)
                   else if !(1 <= version < old(secrets[id].current)) then Err(NotFound)
                   else Ok(old(secrets[id].current) + 1)
      ensures r.Err? ==> State() == old(State())
      ensures r.Ok? ==> versions == old(versions)[VersionKey(id, r.value) := old(versions[VersionKey(id, version)])]
      ensures r.Ok? ==>
        forall h | Refines(master, old(State()), h) ::
          Refines(master, State(), h[id := h[id] + [h[id][version - 1]]])
    {
      if !Live(State(), id) {
        return Err(NotFound);
      }
      if version == secrets[id].current {
        return Err(Invalid);
      }
      if version < 0 || VersionKey(id, version) !in versions {
        return Err(NotFound);
      }
      ghost var before := State();
      var copied := versions[VersionKey(id, version)];
      r := Write(id, 0, copied);
      forall h | Refines(master, before, h) ensures Refines(master, State(), h[id := h[id] + [h[id][version - 1]]]) {
        GrowsReflexive(before);
        RevealVersionYieldsThatValue(master, before, before, h, id, version);
        hide Sound, Refines;
        AppendRefines(master, before, h, id, copied, h[id][version - 1]);
      }
    }

    /** One entry of a promotion, inside its transaction. On success the tables are
        those of PromoteOne; on failure the caller rolls everything back. */
    method PromoteEntry(project: Uuid, environment: Uuid, e: Entry) returns (r: Result<()>)
      requires Valid() && ValidKey(e.key)
      requires environment in environments ==> environments[environment].project == project
      modifies this
      ensures environments == old(environments)
      ensures r.Ok? <==> PromoteOne(old(State()), project, environment, e).Ok?
      ensures r.Err? ==> r.error == PromoteOne(old(State()), project, environment, e).error
      ensures r.Ok? ==> State() == PromoteOne(old(State()), project, environment, e).value && Valid()
    {
      ghost var before := State();
      var id;
      if e.target.Some? {
        id := e.target.value;
        if id in secrets {
          AppendIsSound(before, id, e.sealed);
        }
      } else {
        var created := CreateSecret(e.id, project, environment, e.key);
        if created.Err? {
          return Err(created.error);
        }
        id := created.value;
        AddSecretIsSound(before, id, project, environment, e.key, e.sealed);
      }
      hide Sound;
      var version := AddVersion(id, e.sealed);
      if version.None? {
        return Err(NotFound);
      }
      r := Ok(());
    }

    /** The transaction of a promotion: every entry is written, or none is. */
    method Promote(project: Uuid, environment: Uuid, entries: seq<Entry>) returns (r: Result<nat>)
      requires Valid() && forall i | 0 <= i < |entries| :: ValidKey(entries[i].key)
      requires environment in environments ==> environments[environment].project == project
      modifies this
      ensures Valid()
      ensures State() == Committed(old(State()), PromoteTx(old(State()), project, environment, entries))
      ensures r.Ok? <==> PromoteTx(old(State()), project, environment, entries).Ok?
      ensures r.Err? ==> r.error == PromoteTx(old(State()), project, environment, entries).error
      ensures r.Ok? ==> r.value == |entries|
    {
      var before := State();
      hide PromoteOne;
      for i := 0 to |entries|
        invariant Valid() && PromoteTx(before, project, environment, entries[..i]) == Ok(State())
        invariant environments == before.environments
      {
        assert entries[..i + 1][..i] == entries[..i];
        var written := PromoteEntry(project, environment, entries[i]);
        if written.Err? {
          Restore(before);
          PromotePrefixFails(before, project, environment, entries, i + 1);
          return Err(written.error);
        }
      }
      assert entries[..|entries|] == entries;
      r := Ok(|entries|);
    }
  }
}
