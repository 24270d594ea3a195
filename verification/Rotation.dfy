/** Master key rotation: walk the stored versions in id order, one page and one
    commit at a time, rewrapping each data key under the next master key. A run may
    stop at any point; running again with the same keys resumes it. */
module Rotation {
  import opened FiniteSets
  import opened Outcomes
  import opened Envelope
  import opened Schema

  type RowId = nat

  /** uuid.Nil, where the cursor starts. */
  const NIL: RowId := 0

  /** A row of secret_versions; only the wrapped key inside `sealed` is ever written. */
  datatype Row = Row(key: VersionKey, sealed: Sealed, comment: string)

  type Rows = map<RowId, Row>

  /** The two keys, and the nonce that wrapping each row's key will draw. */
  datatype Keys = Keys(current: Key, next: Key, draw: RowId -> Nonce)

  /** What examining one row finds. */
  datatype Verdict = Rewrapped(wrapped: Wrapped) | Already | Corrupt

  /** Where a run is made to stop, page by page. */
  datatype Fate = Proceed | StopBeforePage | FailAtUpdate(n: nat) | FailAtCommit

  datatype Report =
    | Completed(processed: nat, skipped: nat)
    | Interrupted
    | Failed
    | Unreadable(id: RowId)

  function Examine(keys: Keys, id: RowId, row: Row): Verdict {
    match Rewrap(keys.current, row.sealed, keys.next, keys.draw(id))
    case Ok(sealed) => Rewrapped(sealed.wrapped)
    case Err(_) => if Rewrap(keys.next, row.sealed, keys.next, keys.draw(id)).Ok? then Already else Corrupt
  }

  /** A row is rewrapped when the current key opens its data key, with the nonce drawn for it;
      it is on the next key already when only that opens it; otherwise it is corrupt. */
  lemma ExamineExactly(keys: Keys, id: RowId, row: Row)
    ensures var current, next := Unwrap(keys.current, row.sealed.wrapped), Unwrap(keys.next, row.sealed.wrapped);
            match Examine(keys, id, row)
            case Rewrapped(wrapped) =>
              current.Ok? && Unwrap(keys.next, wrapped) == current && wrapped.Wrapped? && wrapped.prefix == keys.draw(id)
            case Already => current.Err? && next.Ok?
            case Corrupt => current.Err? && next.Err?
  {
  }

  function SetWrapped(row: Row, wrapped: Wrapped): Row {
    row.(sealed := row.sealed.(wrapped := wrapped))
  }

  function Rotated(keys: Keys, id: RowId, row: Row): Row {
    var verdict := Examine(keys, id, row);
    if verdict.Rewrapped? then SetWrapped(row, verdict.wrapped) else row
  }

  /** The table once every row up to the cursor has been handled. */
  function RotatedUpTo(keys: Keys, rows: Rows, cursor: RowId): Rows {
    map id | id in rows :: if NIL < id <= cursor then Rotated(keys, id, rows[id]) else rows[id]
  }

  function UpTo(rows: Rows, cursor: RowId): set<RowId> {
    set id | id in rows && NIL < id <= cursor
  }

  function Above(rows: Rows, cursor: RowId): set<RowId> {
    set id | id in rows && cursor < id
  }

  function AlreadyUpTo(keys: Keys, rows: Rows, cursor: RowId): set<RowId> {
    set id | id in rows && NIL < id <= cursor && Examine(keys, id, rows[id]).Already?
  }

  ghost predicate ReadableUpTo(keys: Keys, rows: Rows, cursor: RowId) {
    forall id | id in rows && NIL < id <= cursor :: !Examine(keys, id, rows[id]).Corrupt?
  }

  // ---- The page query -------------------------------------------------------

  /** The page query: of the ids above the cursor the least ones, in order, and no more
      than the limit. */
  ghost function PageOf(above: set<RowId>, limit: nat): seq<RowId>
    decreases limit
  {
    if limit == 0 || above == {} then []
    else
      var m := Least(above);
      [m] + PageOf(above - {m}, limit - 1)
  }

  /** A page: ascending, from the candidates, and leaving behind only larger ids, and
      only when it is full. */
  lemma {:induction false} PageIsAPage(above: set<RowId>, limit: nat)
    ensures var page := PageOf(above, limit);
      && (forall i, j | 0 <= i < j < |page| :: page[i] < page[j])
      && (forall id | id in page :: id in above)
      && (forall id | id in above && id !in page :: |page| == limit && forall x | x in page :: x < id)
      && |page| <= limit
    decreases limit
  {
    if limit > 0 && above != {} {
      var m := Least(above);
      PageIsAPage(above - {m}, limit - 1);
      var rest := PageOf(above - {m}, limit - 1);
      forall id | id in rest ensures m < id {
        assert id in above - {m};
      }
      var page := PageOf(above, limit);
      forall i, j | 0 <= i < j < |page| ensures page[i] < page[j] {
        assert page[j] == rest[j - 1] && rest[j - 1] in rest;
      }
    }
  }

  /** An update the transaction of a batch will make. */
  datatype Update = Update(id: RowId, dek: Wrapped)

  function ApplyUpdates(rows: Rows, updates: seq<Update>): Rows {
    if updates == [] then rows
    else
      var u := updates[|updates| - 1];
      var front := ApplyUpdates(rows, updates[..|updates| - 1]);
      if u.id in front then front[u.id := SetWrapped(front[u.id], u.dek)] else front
  }

  /** Handling the next row above the cursor extends what has been handled by it. */
  lemma HandleNext(keys: Keys, rows: Rows, cursor: RowId, id: RowId)
    requires id in rows && cursor < id && forall x | x in rows && cursor < x <= id :: x == id
    ensures UpTo(rows, id) == UpTo(rows, cursor) + {id} && id !in UpTo(rows, cursor)
    ensures AlreadyUpTo(keys, rows, id) ==
            AlreadyUpTo(keys, rows, cursor) + if Examine(keys, id, rows[id]).Already? then {id} else {}
    ensures id !in AlreadyUpTo(keys, rows, cursor)
    ensures RotatedUpTo(keys, rows, id) == RotatedUpTo(keys, rows, cursor)[id := Rotated(keys, id, rows[id])]
    ensures ReadableUpTo(keys, rows, id) <==> ReadableUpTo(keys, rows, cursor) && !Examine(keys, id, rows[id]).Corrupt?
    ensures id in RotatedUpTo(keys, rows, cursor) && RotatedUpTo(keys, rows, cursor)[id] == rows[id]
  {
    assert forall x :: x in UpTo(rows, id) <==> x in UpTo(rows, cursor) || x == id;
  }

  /** Within a page there is no row between one id and the next. */
  lemma PageHasNoGaps(rows: Rows, cursor: RowId, limit: nat, k: nat)
    requires k < |PageOf(Above(rows, cursor), limit)|
    ensures var page := PageOf(Above(rows, cursor), limit);
            var from := if k == 0 then cursor else page[k - 1];
            page[k] in rows && from < page[k] && forall x | x in rows && from < x <= page[k] :: x == page[k]
  {
    var page := PageOf(Above(rows, cursor), limit);
    PageIsAPage(Above(rows, cursor), limit);
    var from := if k == 0 then cursor else page[k - 1];
    assert page[k] in page;
    assert k > 0 ==> page[k - 1] in page;
    forall x | x in rows && from < x <= page[k] ensures x == page[k] {
      assert x in Above(rows, cursor);
      if x in page {
        var i :| 0 <= i < |page| && page[i] == x;
      }
    }
  }

  lemma NoPageNoRows(rows: Rows, cursor: RowId, limit: nat)
    requires limit > 0 && PageOf(Above(rows, cursor), limit) == []
    ensures UpTo(rows, cursor) == Above(rows, NIL)
  {
    assert Above(rows, cursor) == {};
    forall id | id in rows && NIL < id ensures id <= cursor {
      assert id !in Above(rows, cursor);
    }
  }

  /** The ids in the order they are visited: each row up to the cursor, once. */
  ghost predicate VisitedUpTo(rows: Rows, cursor: RowId, visited: seq<RowId>) {
    && (forall i, j | 0 <= i < j < |visited| :: visited[i] < visited[j])
    && (forall id :: id in visited <==> id in UpTo(rows, cursor))
  }

  /** A page and the rows before it make up the rows up to its last id. */
  lemma PageExtends(rows: Rows, cursor: RowId, limit: nat, visited: seq<RowId>)
    requires PageOf(Above(rows, cursor), limit) != [] && VisitedUpTo(rows, cursor, visited)
    ensures var page := PageOf(Above(rows, cursor), limit);
            var last := page[|page| - 1];
            VisitedUpTo(rows, last, visited + page) && |Above(rows, last)| < |Above(rows, cursor)|
  {
    var page := PageOf(Above(rows, cursor), limit);
    var last := page[|page| - 1];
    PageIsAPage(Above(rows, cursor), limit);
    assert last in page;
    forall i | 0 <= i < |visited| ensures visited[i] <= cursor {
      assert visited[i] in visited;
    }
    forall j | 0 <= j < |page| ensures cursor < page[j] <= last {
      assert page[j] in page;
    }
    forall id ensures id in visited + page <==> id in UpTo(rows, last) {
      if id in page {
        var j :| 0 <= j < |page| && page[j] == id;
      }
      if id in UpTo(rows, last) && id !in UpTo(rows, cursor) {
        assert id in Above(rows, cursor);
      }
    }
    assert last in Above(rows, cursor) && last !in Above(rows, last);
    SmallerSet(Above(rows, last), Above(rows, cursor), last);
  }

  /** Everything up to the cursor has been examined without finding a corrupt row, and,
      unless this is a dry run, rotated; nothing else has changed. */
  ghost predicate ReachedBy(keys: Keys, dryRun: bool, before: Rows, after: Rows, cursor: RowId) {
    && ReadableUpTo(keys, before, cursor)
    && after == if dryRun then before else RotatedUpTo(keys, before, cursor)
  }

  lemma NotYetTouched(keys: Keys, dryRun: bool, before: Rows, after: Rows, cursor: RowId)
    requires ReachedBy(keys, dryRun, before, after, cursor)
    ensures Above(after, cursor) == Above(before, cursor)
    ensures forall id | id in before && cursor < id :: id in after && after[id] == before[id]
  {
  }

  function NonNil(rows: Rows): set<RowId> {
    set id | id in rows && id != NIL
  }

  function AlreadyOnNext(keys: Keys, rows: Rows): set<RowId> {
    set id | id in rows && id != NIL && Examine(keys, id, rows[id]).Already?
  }

  function ToRewrap(keys: Keys, rows: Rows): set<RowId> {
    set id | id in rows && id != NIL && Examine(keys, id, rows[id]).Rewrapped?
  }

  /** Every row, except one under the nil id, is examined and, unless this is a dry run,
      rotated; `processed` counts them and `skipped` those already on the next key, so
      that processed - skipped are the rows rewrapped. */
  ghost predicate CompletedBy(keys: Keys, dryRun: bool, before: Rows, after: Rows, report: Report)
    requires report.Completed?
  {
    && (forall id | id in before && id != NIL :: !Examine(keys, id, before[id]).Corrupt?)
    && (if dryRun then after == before else
          after == map id | id in before :: if id == NIL then before[id] else Rotated(keys, id, before[id]))
    && report.processed == |NonNil(before)|
    && report.skipped == |AlreadyOnNext(keys, before)|
    && report.processed - report.skipped == |ToRewrap(keys, before)|
  }

  lemma CountsAddUp(keys: Keys, rows: Rows)
    requires forall id | id in rows && id != NIL :: !Examine(keys, id, rows[id]).Corrupt?
    ensures |NonNil(rows)| == |AlreadyOnNext(keys, rows)| + |ToRewrap(keys, rows)|
  {
    assert NonNil(rows) == AlreadyOnNext(keys, rows) + ToRewrap(keys, rows);
    assert AlreadyOnNext(keys, rows) !! ToRewrap(keys, rows);
  }

  lemma NothingAboveTheCursor(keys: Keys, rows: Rows, cursor: RowId)
    requires UpTo(rows, cursor) == Above(rows, NIL)
    ensures UpTo(rows, cursor) == NonNil(rows) && AlreadyUpTo(keys, rows, cursor) == AlreadyOnNext(keys, rows)
    ensures forall id | id in rows && id != NIL :: NIL < id <= cursor
  {
    forall id | id in rows && id != NIL ensures id <= cursor {
      assert id in Above(rows, NIL);
      assert id in UpTo(rows, cursor);
    }
  }

  lemma NothingLeftIsCompleted(keys: Keys, dryRun: bool, before: Rows, after: Rows, cursor: RowId, visited: seq<RowId>)
    requires ReachedBy(keys, dryRun, before, after, cursor) && VisitedUpTo(before, cursor, visited)
    requires UpTo(before, cursor) == Above(before, NIL)
    ensures CompletedBy(keys, dryRun, before, after, Completed(|UpTo(before, cursor)|, |AlreadyUpTo(keys, before, cursor)|))
    ensures forall id :: id in visited <==> id in before && id != NIL
  {
    NothingAboveTheCursor(keys, before, cursor);
    CountsAddUp(keys, before);
    assert forall id :: id in NonNil(before) <==> id in before && id != NIL;
    hide Examine, UpTo, AlreadyUpTo, NonNil, AlreadyOnNext, ToRewrap, Above, Rotated;
  }

  // ---- The run --------------------------------------------------------------

  class SecretVersions {
    var rows: Rows

    constructor (contents: Rows)
      ensures rows == contents
    {
      rows := contents;
    }

    /** Give the row a new wrapped key, and leave its other columns alone. */
    method UpdateWrapped(id: RowId, wrapped: Wrapped)
      modifies this
      ensures rows == if id in old(rows) then old(rows)[id := SetWrapped(old(rows)[id], wrapped)] else old(rows)
    {
      if id in rows {
        rows := rows[id := SetWrapped(rows[id], wrapped)];
      }
    }

    /** Read the next page. */
    method List(cursor: RowId, limit: nat) returns (page: seq<RowId>)
      ensures page == PageOf(Above(rows, cursor), limit)
    {
      page := [];
      var rest := Above(rows, cursor);
      while |page| < limit && rest != {}
        invariant |page| <= limit
        invariant page + PageOf(rest, limit - |page|) == PageOf(Above(rows, cursor), limit)
      {
        var m := First(rest);
        page, rest := page + [m], rest - {m};
      }
    }

    /** Rewrap the keys of one page, outside any transaction. `before` is the table as
        it was when the run began. */
    method RewrapPage(keys: Keys, cursor: RowId, limit: nat, page: seq<RowId>, ghost before: Rows)
      returns (updates: seq<Update>, skipped: nat, corrupt: Option<RowId>)
      requires page == PageOf(Above(before, cursor), limit) && page != [] && ReadableUpTo(keys, before, cursor)
      requires forall id | id in before && cursor < id :: id in rows && rows[id] == before[id]
      ensures corrupt.Some? ==> corrupt.value in before && Examine(keys, corrupt.value, before[corrupt.value]).Corrupt?
      ensures corrupt.None? ==>
                var last := page[|page| - 1];
                && ReadableUpTo(keys, before, last)
                && |updates| + skipped == |page|
                && |AlreadyUpTo(keys, before, last)| == |AlreadyUpTo(keys, before, cursor)| + skipped
                && |UpTo(before, last)| == |UpTo(before, cursor)| + |page|
                && ApplyUpdates(RotatedUpTo(keys, before, cursor), updates) == RotatedUpTo(keys, before, last)
    {
      hide UpTo, AlreadyUpTo, ReadableUpTo, RotatedUpTo, PageOf, Above;
      updates, skipped, corrupt := [], 0, None;
      ghost var reached := cursor;
      for k := 0 to |page|
        invariant reached == if k == 0 then cursor else page[k - 1]
        invariant cursor <= reached && ReadableUpTo(keys, before, reached)
        invariant |updates| + skipped == k
        invariant |AlreadyUpTo(keys, before, reached)| == |AlreadyUpTo(keys, before, cursor)| + skipped
        invariant |UpTo(before, reached)| == |UpTo(before, cursor)| + k
        invariant ApplyUpdates(RotatedUpTo(keys, before, cursor), updates) == RotatedUpTo(keys, before, reached)
      {
        var id := page[k];
        PageHasNoGaps(before, cursor, limit, k);
        HandleNext(keys, before, reached, id);
        assert rows[id] == before[id];
        var verdict := Examine(keys, id, rows[id]);
        match verdict {
          case Corrupt =>
            corrupt := Some(id);
            return;
          case Already =>
            skipped := skipped + 1;
          case Rewrapped(dek) =>
            assert (updates + [Update(id, dek)])[..|updates|] == updates;
            updates := updates + [Update(id, dek)];
        }
        reached := id;
      }
    }

    /** One transaction for the batch: every update is made, or none is. */
    method CommitBatch(updates: seq<Update>, fate: Fate) returns (ok: bool)
      modifies this
      ensures rows == if ok then ApplyUpdates(old(rows), updates) else old(rows)
      ensures ok <==> !fate.FailAtCommit? && !(fate.FailAtUpdate? && fate.n < |updates|)
    {
      var before := rows;
      for u := 0 to |updates|
        invariant rows == ApplyUpdates(before, updates[..u])
        invariant fate.FailAtUpdate? ==> u <= fate.n
      {
        assert updates[..u + 1][..u] == updates[..u];
        if fate == FailAtUpdate(u) {
          rows := before;
          return false;
        }
        UpdateWrapped(updates[u].id, updates[u].dek);
      }
      assert updates[..|updates|] == updates;
      if fate.FailAtCommit? {
        rows := before;
        return false;
      }
      ok := true;
    }

    /** The loop of the command. `fates` says where, if anywhere, it is stopped. Where
        it stops, the rows up to some id have been rotated and the others not touched;
        if it completes, every row but one under the nil id has been visited, once.
        `written` counts the updates that were committed. */
    method Run(keys: Keys, batch: nat, dryRun: bool, fates: seq<Fate>)
      returns (report: Report, ghost visited: seq<RowId>, ghost written: nat)
      requires 1 <= batch <= 10_000
      modifies this
      ensures exists cursor :: ReachedBy(keys, dryRun, old(rows), rows, cursor)
      ensures forall i, j | 0 <= i < j < |visited| :: visited[i] < visited[j]
      ensures report.Completed? ==> CompletedBy(keys, dryRun, old(rows), rows, report)
      ensures report.Completed? ==> forall id :: id in visited <==> id in old(rows) && id != NIL
      ensures report.Completed? ==> written == if dryRun then 0 else report.processed - report.skipped
      ensures report.Unreadable? ==> report.id in old(rows) && Examine(keys, report.id, old(rows)[report.id]).Corrupt?
      ensures report.Interrupted? || report.Failed? ==> exists i :: 0 <= i < |fates| && !fates[i].Proceed?
    {
      ghost var before := rows;
      var cursor, processed, skipped := NIL, 0, 0;
      var turn := 0;
      visited, written := [], 0;
      assert ReachedBy(keys, dryRun, before, rows, NIL) && VisitedUpTo(before, NIL, visited);
      assert UpTo(before, NIL) == {} && AlreadyUpTo(keys, before, NIL) == {};
      hide UpTo, AlreadyUpTo, ReadableUpTo, RotatedUpTo, PageOf, Above, VisitedUpTo, CompletedBy, Examine, ApplyUpdates;
      while true
        invariant ReachedBy(keys, dryRun, before, rows, cursor)
        invariant processed == |UpTo(before, cursor)| && skipped == |AlreadyUpTo(keys, before, cursor)|
        invariant VisitedUpTo(before, cursor, visited)
        invariant if dryRun then written == 0 else written + skipped == processed
        decreases |Above(before, cursor)|
      {
        var fate := if turn < |fates| then fates[turn] else Proceed;
        turn := turn + 1;
        if fate.StopBeforePage? {
          return Interrupted, visited, written;
        }
        var page := List(cursor, batch);
        NotYetTouched(keys, dryRun, before, rows, cursor);
        if |page| == 0 {
          NoPageNoRows(before, cursor, batch);
          NothingLeftIsCompleted(keys, dryRun, before, rows, cursor, visited);
          break;
        }
        var updates, already, corrupt := RewrapPage(keys, cursor, batch, page, before);
        if corrupt.Some? {
          return Unreadable(corrupt.value), visited, written;
        }
        PageExtends(before, cursor, batch, visited);
        visited := visited + page;
        skipped := skipped + already;
        ghost var from := cursor;
        cursor := page[|page| - 1];
        if !dryRun {
          var ok := CommitBatch(updates, fate);
          if !ok {
            assert ReachedBy(keys, dryRun, before, rows, from);
            return Failed, visited, written;
          }
          written := written + |updates|;
        }
        processed := processed + |page|;
      }
      report := Completed(processed, skipped);
    }
  }
}
