/** Why a rotation may be stopped anywhere and run again, and why readers do not
    notice that it has been completed. */
module RotationResume {
  import opened Outcomes
  import opened Envelope
  import opened Schema
  import opened Rotation

  /** A row's data key, under whichever of the two master keys wraps it. */
  function DataKey(current: Key, next: Key, sealed: Sealed): Result<Key> {
    if Unwrap(current, sealed.wrapped).Ok? then Unwrap(current, sealed.wrapped) else Unwrap(next, sealed.wrapped)
  }

  function ReadWithEither(current: Key, next: Key, sealed: Sealed, aad: Bytes): Result<Bytes> {
    var dek :- DataKey(current, next, sealed);
    Open(dek, sealed.nonce, sealed.ciphertext, aad)
  }

  /** One run that was stopped, or failed, after committing the pages up to `cursor`;
      SecretVersions.Run shows that every run leaves the table in such a state. */
  datatype Stopped = Stopped(draw: RowId -> Nonce, cursor: RowId)

  function AfterRuns(current: Key, next: Key, rows: Rows, runs: seq<Stopped>): Rows {
    if runs == [] then rows
    else
      var last := runs[|runs| - 1];
      RotatedUpTo(Keys(current, next, last.draw), AfterRuns(current, next, rows, runs[..|runs| - 1]), last.cursor)
  }

  /** A run that starts where others left off and stops, or completes, anywhere leaves
      the table as one more such run. */
  lemma EveryRunIsOneMore(keys: Keys, rows: Rows, runs: seq<Stopped>, after: Rows, cursor: RowId)
    requires ReachedBy(keys, false, AfterRuns(keys.current, keys.next, rows, runs), after, cursor)
    ensures after == AfterRuns(keys.current, keys.next, rows, runs + [Stopped(keys.draw, cursor)])
  {
    var longer := runs + [Stopped(keys.draw, cursor)];
    assert longer[..|longer| - 1] == runs;
  }

  /** No column but the wrapped key has changed. */
  predicate SameButForTheKey(row: Row, row': Row) {
    && row'.key == row.key && row'.comment == row.comment
    && row'.sealed.nonce == row.sealed.nonce && row'.sealed.ciphertext == row.sealed.ciphertext
  }

  lemma RotatedKeepsDataKey(keys: Keys, id: RowId, row: Row)
    ensures DataKey(keys.current, keys.next, Rotated(keys, id, row).sealed) == DataKey(keys.current, keys.next, row.sealed)
    ensures SameButForTheKey(row, Rotated(keys, id, row))
  {
  }

  /** After any number of runs with the same two keys, each stopped anywhere, a row has
      the data key it began with, under one key or the other, and every other column
      is as it was. */
  lemma {:induction false} RunsKeepDataKeys(current: Key, next: Key, rows: Rows, runs: seq<Stopped>, id: RowId)
    requires id in rows
    ensures var after := AfterRuns(current, next, rows, runs);
            && after.Keys == rows.Keys
            && SameButForTheKey(rows[id], after[id])
            && DataKey(current, next, after[id].sealed) == DataKey(current, next, rows[id].sealed)
  {
    if runs != [] {
      var last := runs[|runs| - 1];
      var before := AfterRuns(current, next, rows, runs[..|runs| - 1]);
      RunsKeepDataKeys(current, next, rows, runs[..|runs| - 1], id);
      RotatedKeepsDataKey(Keys(current, next, last.draw), id, before[id]);
    }
  }

  /** ... and one further run that completes puts every row, but one under the nil id,
      on the next key with its original data key: what it decrypts to under the next
      key is what it decrypted to at the start. */
  lemma ResumedRunCompletes(keys: Keys, rows: Rows, runs: seq<Stopped>, after: Rows, report: Report, id: RowId,
                            aad: Bytes)
    requires report.Completed?
    requires CompletedBy(keys, false, AfterRuns(keys.current, keys.next, rows, runs), after, report)
    requires id in rows && id != NIL
    ensures id in after && SameButForTheKey(rows[id], after[id])
    ensures Unwrap(keys.next, after[id].sealed.wrapped) == DataKey(keys.current, keys.next, rows[id].sealed)
    ensures Unwrap(keys.next, after[id].sealed.wrapped).Ok?
    ensures Decrypt(keys.next, after[id].sealed, aad) == ReadWithEither(keys.current, keys.next, rows[id].sealed, aad)
  {
    var before := AfterRuns(keys.current, keys.next, rows, runs);
    RunsKeepDataKeys(keys.current, keys.next, rows, runs, id);
    assert !Examine(keys, id, before[id]).Corrupt?;
    RotatedKeepsDataKey(keys, id, before[id]);
  }

  /** A stopped or interrupted run never makes a row unreadable that was readable, so the
      resumed run does not stop at it. */
  lemma ReadableRowsStayReadable(keys: Keys, rows: Rows, runs: seq<Stopped>, id: RowId)
    requires id in rows
    ensures id in AfterRuns(keys.current, keys.next, rows, runs)
    ensures Examine(keys, id, AfterRuns(keys.current, keys.next, rows, runs)[id]).Corrupt?
       <==> DataKey(keys.current, keys.next, rows[id].sealed).Err?
  {
    RunsKeepDataKeys(keys.current, keys.next, rows, runs, id);
  }

  /** The nil id is where the cursor starts, so a row under it is never reached: a
      completed run leaves all rows on the next key exactly when there is no such row
      or it was there already. */
  lemma AllOnNextUnlessNil(keys: Keys, before: Rows, after: Rows, report: Report)
    requires report.Completed? && CompletedBy(keys, false, before, after, report)
    ensures (forall id | id in after :: Unwrap(keys.next, after[id].sealed.wrapped).Ok?)
       <==> (NIL in before ==> Unwrap(keys.next, before[NIL].sealed.wrapped).Ok?)
  {
    forall id | id in after && id != NIL ensures Unwrap(keys.next, after[id].sealed.wrapped).Ok? {
      assert !Examine(keys, id, before[id]).Corrupt?;
      RotatedKeepsDataKey(keys, id, before[id]);
    }
    assert NIL in before <==> NIL in after;
    assert NIL in before ==> after[NIL] == before[NIL];
  }

  // ---- The store under the next key ------------------------------------------

  /** The rows of the versions table: each version under its own id, none of them nil. */
  ghost predicate Stores(rows: Rows, t: Tables) {
    && NIL !in rows
    && (forall id | id in rows :: rows[id].key in t.versions && t.versions[rows[id].key] == rows[id].sealed)
    && (forall k | k in t.versions :: exists id :: id in rows && rows[id].key == k)
    && (forall id, id' | id in rows && id' in rows && rows[id].key == rows[id'].key :: id == id')
  }

  /** A completed rotation, after any stopped ones, keeps every history: the tables
      refine the same lists of values, now under the next master key. */
  lemma RotationKeepsHistories(keys: Keys, t: Tables, h: History, rows: Rows, runs: seq<Stopped>,
                               after: Rows, report: Report, t': Tables)
    requires Sound(t) && Refines(keys.current, t, h) && Stores(rows, t)
    requires report.Completed?
    requires CompletedBy(keys, false, AfterRuns(keys.current, keys.next, rows, runs), after, report)
    requires t' == t.(versions := t'.versions) && t'.versions.Keys == t.versions.Keys && Stores(after, t')
    ensures Sound(t') && Refines(keys.next, t', h)
  {
    SameRowsAreSound(t, t');
    hide Sound, CompletedBy, AfterRuns, Stores;
    forall x | x in h ensures RowRefines(keys.next, t', x, h[x]) {
      assert RowRefines(keys.current, t, x, h[x]);
      forall i | 0 <= i < |h[x]| ensures Opens(keys.next, t', x, i, h[x][i]) {
        assert Opens(keys.current, t, x, i, h[x][i]);
        VersionSurvives(keys, t, rows, runs, after, report, t', VersionKey(x, i + 1), AadOf(t.secrets[x]));
      }
    }
  }

  lemma SameRowsAreSound(t: Tables, t': Tables)
    requires Sound(t) && t' == t.(versions := t'.versions) && t'.versions.Keys == t.versions.Keys
    ensures Sound(t')
  {
    LiveKeysStayUnique(t, t');
    assert forall k :: k in t'.versions <==> k in t.versions;
    hide LiveKeysAreUnique;
  }

  lemma VersionSurvives(keys: Keys, t: Tables, rows: Rows, runs: seq<Stopped>, after: Rows, report: Report,
                        t': Tables, k: VersionKey, aad: Bytes)
    requires Stores(rows, t) && Stores(after, t') && report.Completed?
    requires CompletedBy(keys, false, AfterRuns(keys.current, keys.next, rows, runs), after, report)
    requires k in t.versions && k in t'.versions && Decrypt(keys.current, t.versions[k], aad).Ok?
    ensures Decrypt(keys.next, t'.versions[k], aad) == Decrypt(keys.current, t.versions[k], aad)
  {
    var id :| id in rows && rows[id].key == k;
    ResumedRunCompletes(keys, rows, runs, after, report, id, aad);
    assert after[id].key == k;
  }

  /** There are such tables: the completed run leaves a versions table. */
  lemma RotatedTablesExist(keys: Keys, t: Tables, rows: Rows, runs: seq<Stopped>, after: Rows, report: Report)
    returns (t': Tables)
    requires Stores(rows, t) && report.Completed?
    requires CompletedBy(keys, false, AfterRuns(keys.current, keys.next, rows, runs), after, report)
    ensures t' == t.(versions := t'.versions) && t'.versions.Keys == t.versions.Keys && Stores(after, t')
  {
    forall id ensures (id in after <==> id in rows) && (id in rows ==> after[id].key == rows[id].key) {
      RowIsKept(keys, t, rows, runs, after, report, id);
    }
    hide CompletedBy, AfterRuns;
    t' := VersionsOf(t, rows, after);
  }

  lemma RowIsKept(keys: Keys, t: Tables, rows: Rows, runs: seq<Stopped>, after: Rows, report: Report, id: RowId)
    requires Stores(rows, t) && report.Completed?
    requires CompletedBy(keys, false, AfterRuns(keys.current, keys.next, rows, runs), after, report)
    ensures (id in after <==> id in rows) && (id in rows ==> after[id].key == rows[id].key)
  {
    RunsKeepKeys(keys.current, keys.next, rows, runs);
    if id in rows {
      ResumedRunCompletes(keys, rows, runs, after, report, id, "");
    }
  }

  lemma VersionsOf(t: Tables, rows: Rows, after: Rows) returns (t': Tables)
    requires Stores(rows, t)
    requires forall id :: (id in after <==> id in rows) && (id in rows ==> after[id].key == rows[id].key)
    ensures t' == t.(versions := t'.versions) && t'.versions.Keys == t.versions.Keys && Stores(after, t')
  {
    t' := t.(versions := map k | k in t.versions :: after[RowOf(rows, t, k)].sealed);
    forall id | id in after ensures after[id].key in t'.versions && t'.versions[after[id].key] == after[id].sealed {
      assert RowOf(rows, t, rows[id].key) == id;
    }
    forall k | k in t'.versions ensures exists id :: id in after && after[id].key == k {
      var id := RowOf(rows, t, k);
      assert id in after && after[id].key == k;
    }
  }

  lemma {:induction false} RunsKeepKeys(current: Key, next: Key, rows: Rows, runs: seq<Stopped>)
    ensures AfterRuns(current, next, rows, runs).Keys == rows.Keys
  {
    if runs != [] {
      RunsKeepKeys(current, next, rows, runs[..|runs| - 1]);
    }
  }

  ghost function RowOf(rows: Rows, t: Tables, k: VersionKey): (id: RowId)
    requires Stores(rows, t) && k in t.versions
    ensures id in rows && rows[id].key == k
  {
    var id :| id in rows && rows[id].key == k;
    id
  }
}
