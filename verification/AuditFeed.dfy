/** Reading the audit log a page at a time, newest first, while rows keep arriving. */
module AuditFeed {
  import opened FiniteSets
  import opened Outcomes

  datatype Entry = Entry(
    id: nat, createdAt: int, workspace: nat, action: string,
    actor: Option<nat>, resourceType: string, resource: Option<nat>)

  /** Every field is optional; an empty text or None does not filter. */
  datatype Filter = Filter(action: string, actor: Option<nat>, resourceType: string, resource: Option<nat>)

  /** Where the next page starts: at the top, or below a row already shown. */
  datatype Cursor = Top | Below(createdAt: int, id: nat)

  datatype Page = Page(entries: seq<Entry>, next: Option<Cursor>)

  const DEFAULT_AUDIT_LIMIT := 50
  const MAX_AUDIT_LIMIT := 200

  predicate Matches(workspace: nat, f: Filter, e: Entry) {
    && e.workspace == workspace
    && (f.action == "" || e.action == f.action)
    && (f.actor.None? || e.actor == f.actor)
    && (f.resourceType == "" || e.resourceType == f.resourceType)
    && (f.resource.None? || e.resource == f.resource)
  }

  /** Earlier, or of the same time and with the smaller id. */
  predicate Older(a: Entry, b: Entry) {
    IsBelow(a, Below(b.createdAt, b.id))
  }

  predicate IsBelow(e: Entry, c: Cursor) {
    c.Top? || e.createdAt < c.createdAt || (e.createdAt == c.createdAt && e.id < c.id)
  }

  function CursorAt(e: Entry): Cursor {
    Below(e.createdAt, e.id)
  }

  /** The primary key. */
  ghost predicate UniqueIds(log: set<Entry>) {
    forall a, b | a in log && b in log && a.id == b.id :: a == b
  }

  function Select(log: set<Entry>, workspace: nat, f: Filter, c: Cursor): set<Entry> {
    set e | e in log && Matches(workspace, f, e) && IsBelow(e, c)
  }

  function PageSize(limit: int): nat {
    if limit <= 0 then DEFAULT_AUDIT_LIMIT else if limit > MAX_AUDIT_LIMIT then MAX_AUDIT_LIMIT else limit
  }

  ghost predicate NewestFirst(rows: seq<Entry>) {
    forall i, j | 0 <= i < j < |rows| :: Older(rows[j], rows[i])
  }

  /** The n newest of the candidates, newest first. */
  ghost predicate IsNewest(candidates: set<Entry>, n: nat, rows: seq<Entry>) {
    && NewestFirst(rows)
    && (forall e | e in rows :: e in candidates)
    && |rows| <= n
    && (forall e | e in candidates && e !in rows :: |rows| == n && forall x | x in rows :: Older(e, x))
  }

  /** Later, or of the same time and with the greater id. */
  predicate Newer(a: Entry, b: Entry) {
    a.createdAt > b.createdAt || (a.createdAt == b.createdAt && a.id > b.id)
  }

  /** An empty filter selects the workspace's rows and no others, and each field that is
      filled in leaves those that have its value. */
  lemma FiltersNarrow(workspace: nat, f: Filter, e: Entry)
    ensures Matches(workspace, Filter("", None, "", None), e) <==> e.workspace == workspace
    ensures f.action != "" ==>
              (Matches(workspace, f, e) <==> Matches(workspace, f.(action := ""), e) && e.action == f.action)
    ensures f.actor.Some? ==>
              (Matches(workspace, f, e) <==> Matches(workspace, f.(actor := None), e) && e.actor == f.actor)
    ensures f.resourceType != "" ==>
              (Matches(workspace, f, e) <==>
                Matches(workspace, f.(resourceType := ""), e) && e.resourceType == f.resourceType)
    ensures f.resource.Some? ==>
              (Matches(workspace, f, e) <==> Matches(workspace, f.(resource := None), e) && e.resource == f.resource)
  {
  }

  /** What List promises of a page: the newest rows below the cursor, and a cursor at
      the last of them exactly when rows are left below it. */
  ghost predicate IsPage(log: set<Entry>, workspace: nat, f: Filter, c: Cursor, limit: int, page: Page) {
    && IsNewest(Select(log, workspace, f, c), PageSize(limit), page.entries)
    && (page.next.None? ==> forall e | e in Select(log, workspace, f, c) :: e in page.entries)
    && (page.next.Some? ==>
          && page.entries != [] && page.next.value == CursorAt(page.entries[|page.entries| - 1])
          && Select(log, workspace, f, page.next.value) != {})
  }

  /** Of one row more than a page, the first rows are the page and the last is below it. */
  lemma OneRowMore(candidates: set<Entry>, n: nat, found: seq<Entry>)
    requires n > 0 && IsNewest(candidates, n + 1, found) && |found| == n + 1
    ensures IsNewest(candidates, n, found[..n])
    ensures found[n] in candidates && Older(found[n], found[n - 1])
  {
    var first, extra := found[..n], found[n];
    assert found == first + [extra];
    assert extra in found;
    forall e | e in candidates && e !in first ensures forall x | x in first :: Older(e, x) {
      assert forall x | x in first :: x in found;
      if e == extra {
        forall x | x in first ensures Older(e, x) {
          var i :| 0 <= i < n && found[i] == x;
        }
      }
    }
  }

  /** Of no more rows than a page, all are shown. */
  lemma AllRowsShown(candidates: set<Entry>, n: nat, found: seq<Entry>)
    requires IsNewest(candidates, n + 1, found) && |found| <= n
    ensures IsNewest(candidates, n, found) && forall e | e in candidates :: e in found
  {
  }

  class AuditLog {
    var rows: set<Entry>

    constructor ()
      ensures rows == {} && Valid()
    {
      rows := {};
    }

    ghost predicate Valid()
      reads this
    {
      UniqueIds(rows)
    }

    /** CreateAuditLog: the database draws the id and stamps the time. */
    method Insert(e: Entry) returns (ok: bool)
      requires Valid()
      modifies this
      ensures Valid() && ok == (forall x | x in old(rows) :: x.id != e.id)
      ensures rows == if ok then old(rows) + {e} else old(rows)
    {
      ok := forall x | x in rows :: x.id != e.id;
      if ok {
        rows := rows + {e};
      }
    }

    method Query(workspace: nat, f: Filter, c: Cursor, n: nat) returns (found: seq<Entry>)
      requires Valid()
      ensures IsNewest(Select(rows, workspace, f, c), n, found)
    {
      var candidates := Select(rows, workspace, f, c);
      var rest := candidates;
      found := [];
      while |found| < n && rest != {}
        invariant rest <= candidates && |found| <= n
        invariant NewestFirst(found)
        invariant forall e :: e in found <==> e in candidates && e !in rest
        invariant forall e, x | e in rest && x in found :: Older(e, x)
      {
        var e := Newest(rest);
        rest := rest - {e};
        found := found + [e];
      }
    }

    /** AuditService.List: one row more than the page is asked for, to see whether there
        is another page. */
    method List(workspace: nat, f: Filter, c: Cursor, limit: int) returns (page: Page)
      requires Valid()
      ensures IsPage(rows, workspace, f, c, limit, page)
      ensures forall i, j | 0 <= i < j < |page.entries| :: Newer(page.entries[i], page.entries[j])
      ensures |page.entries| <= MAX_AUDIT_LIMIT && (limit <= 0 ==> |page.entries| <= DEFAULT_AUDIT_LIMIT)
      ensures limit > 0 ==> |page.entries| <= limit
      ensures page.next.Some? ==> limit <= 0 || |page.entries| == limit || |page.entries| == MAX_AUDIT_LIMIT
      ensures page.next.Some? && limit <= 0 ==> |page.entries| == DEFAULT_AUDIT_LIMIT
    {
      var n := PageSize(limit);
      var found := Query(workspace, f, c, n + 1);
      var hasMore := |found| > n;
      ghost var candidates := Select(rows, workspace, f, c);
      if hasMore {
        OneRowMore(candidates, n, found);
        assert found[n] in Select(rows, workspace, f, CursorAt(found[n - 1]));
        found := found[..n];
      } else {
        AllRowsShown(candidates, n, found);
      }
      hide IsNewest;
      var entries: seq<Entry> := [];
      for i := 0 to |found|
        invariant entries == found[..i]
      {
        entries := entries + [found[i]];
      }
      page := Page(entries, if hasMore && |entries| > 0 then Some(CursorAt(entries[|entries| - 1])) else None);
    }
  }

  method Newest(s: set<Entry>) returns (m: Entry)
    requires s != {} && UniqueIds(s)
    ensures m in s && forall x | x in s && x != m :: Older(x, m)
  {
    m :| m in s;
    var rest := s - {m};
    while rest != {}
      invariant rest <= s && m in s && m !in rest
      invariant forall x | x in s && x != m :: x in rest || Older(x, m)
    {
      var y :| y in rest;
      rest := rest - {y};
      if Older(m, y) {
        m := y;
      }
    }
  }

  // ---- Following nextCursor while rows arrive -------------------------------------

  /** A reader follows the cursors; page i is answered from the log as it is by then. */
  datatype Visit = Visit(log: set<Entry>, limit: int, page: Page)

  ghost predicate IsWalk(workspace: nat, f: Filter, visits: seq<Visit>) {
    visits == [] ||
    (var front, v := visits[..|visits| - 1], visits[|visits| - 1];
     && IsWalk(workspace, f, front) && UniqueIds(v.log)
     && (front != [] ==> front[|front| - 1].log <= v.log && front[|front| - 1].page.next.Some?)
     && IsPage(v.log, workspace, f, NextCursor(front), v.limit, v.page))
  }

  /** The cursor that the page after these is asked for. */
  function NextCursor(visits: seq<Visit>): Cursor {
    if visits == [] || visits[|visits| - 1].page.next.None? then Top else visits[|visits| - 1].page.next.value
  }

  function Shown(visits: seq<Visit>): seq<Entry> {
    if visits == [] then [] else Shown(visits[..|visits| - 1]) + visits[|visits| - 1].page.entries
  }

  /** So far: what has been shown is newest first and not below the next cursor, and
      every matching row of the first log has been shown or is still below it. */
  ghost predicate ExactSoFar(workspace: nat, f: Filter, first: set<Entry>, visits: seq<Visit>) {
    var shown := Shown(visits);
    && NewestFirst(shown)
    && (forall e | e in shown :: Matches(workspace, f, e))
    && (visits != [] && visits[|visits| - 1].page.next.Some? ==>
          && shown != [] && CursorAt(shown[|shown| - 1]) == visits[|visits| - 1].page.next.value
          && forall e | e in first && Matches(workspace, f, e) ::
               e in shown || IsBelow(e, visits[|visits| - 1].page.next.value))
    && (visits != [] && visits[|visits| - 1].page.next.None? ==>
          forall e | e in first && Matches(workspace, f, e) :: e in shown)
  }

  lemma NextPageIsExact(workspace: nat, f: Filter, first: set<Entry>, front: seq<Visit>, v: Visit)
    requires front != [] && ExactSoFar(workspace, f, first, front) && front[|front| - 1].page.next.Some?
    requires first <= v.log && IsPage(v.log, workspace, f, front[|front| - 1].page.next.value, v.limit, v.page)
    ensures ExactSoFar(workspace, f, first, front + [v])
  {
    var visits := front + [v];
    assert visits[..|visits| - 1] == front;
    var before, entries, c := Shown(front), v.page.entries, front[|front| - 1].page.next.value;
    var shown := before + entries;
    assert Shown(visits) == shown;
    forall i, j | 0 <= i < j < |shown| ensures Older(shown[j], shown[i]) {
      if j >= |before| {
        assert shown[j] in entries && IsBelow(shown[j], c);
        if i < |before| - 1 {
          assert Older(before[|before| - 1], before[i]);
        }
      }
    }
    forall e | e in first && Matches(workspace, f, e) && e !in shown
      ensures v.page.next.Some? && IsBelow(e, v.page.next.value)
    {
      assert e in Select(v.log, workspace, f, c);
      if v.page.next.Some? {
        assert entries[|entries| - 1] in entries;
      }
    }
  }

  lemma FirstPageIsExact(workspace: nat, f: Filter, v: Visit)
    requires IsPage(v.log, workspace, f, Top, v.limit, v.page)
    ensures ExactSoFar(workspace, f, v.log, [v])
  {
    assert [v][..0] == [];
    assert Shown([v]) == v.page.entries;
    forall e | e in v.log && Matches(workspace, f, e) && e !in v.page.entries
      ensures v.page.next.Some? && IsBelow(e, v.page.next.value)
    {
      assert e in Select(v.log, workspace, f, Top);
      if v.page.next.Some? {
        assert v.page.entries[|v.page.entries| - 1] in v.page.entries;
      }
    }
  }

  lemma {:induction false} WalkIsExactSoFar(workspace: nat, f: Filter, visits: seq<Visit>)
    requires visits != [] && IsWalk(workspace, f, visits)
    ensures ExactSoFar(workspace, f, visits[0].log, visits)
    ensures visits[0].log <= visits[|visits| - 1].log
  {
    var n := |visits| - 1;
    var front, v := visits[..n], visits[n];
    assert visits == front + [v];
    hide ExactSoFar, IsPage;
    if n == 0 {
      FirstPageIsExact(workspace, f, v);
      assert visits == [v];
    } else {
      WalkIsExactSoFar(workspace, f, front);
      NextPageIsExact(workspace, f, visits[0].log, front, v);
    }
  }

  /** Following the cursors to the end shows every matching row that was there at the
      start exactly once, whatever arrives on the way, newest first throughout. */
  lemma PagingIsExact(workspace: nat, f: Filter, visits: seq<Visit>)
    requires visits != [] && IsWalk(workspace, f, visits) && visits[|visits| - 1].page.next.None?
    ensures forall e | e in visits[0].log && Matches(workspace, f, e) :: e in Shown(visits)
    ensures forall i, j | 0 <= i < j < |Shown(visits)| :: Newer(Shown(visits)[i], Shown(visits)[j])
    ensures NewestFirst(Shown(visits)) && forall i, j | 0 <= i < j < |Shown(visits)| :: Shown(visits)[i] != Shown(visits)[j]
    ensures forall e | e in Shown(visits) :: Matches(workspace, f, e)
  {
    WalkIsExactSoFar(workspace, f, visits);
  }

  /** If the rows that arrive between two pages sort above the cursor then there is less
      left to show than before, by the size of the page: the walk ends. */
  lemma WalkShrinks(workspace: nat, f: Filter, v: Visit, c: Cursor, later: set<Entry>)
    requires IsPage(v.log, workspace, f, c, v.limit, v.page) && v.page.next.Some?
    requires v.log <= later && forall e | e in later - v.log :: !IsBelow(e, v.page.next.value)
    ensures |Select(later, workspace, f, v.page.next.value)| < |Select(v.log, workspace, f, c)|
  {
    var next := v.page.next.value;
    var last := v.page.entries[|v.page.entries| - 1];
    assert last in v.page.entries;
    assert Select(later, workspace, f, next) <= Select(v.log, workspace, f, c) - {last} by {
      forall e | e in Select(later, workspace, f, next) ensures e in Select(v.log, workspace, f, c) - {last} {
        assert e in later && IsBelow(e, next);
        assert e in v.log;
      }
    }
    SubsetSize(Select(later, workspace, f, next), Select(v.log, workspace, f, c) - {last});
  }

  /** The rows that arrive between two pages sort above the cursor between them. */
  ghost predicate Quiet(visits: seq<Visit>) {
    forall i, j, e | 0 <= i < j < |visits| && j == i + 1 && e in visits[j].log - visits[i].log ::
      visits[i].page.next.Some? ==> !IsBelow(e, visits[i].page.next.value)
  }

  /** Each page of a quiet walk but the last uses up at least one of the matching rows
      that were there at the start, so the walk has at most one page more than those. */
  lemma {:induction false} QuietWalkEnds(workspace: nat, f: Filter, visits: seq<Visit>)
    requires visits != [] && IsWalk(workspace, f, visits) && Quiet(visits)
    ensures var v := visits[|visits| - 1];
            |visits| - 1 + |Select(v.log, workspace, f, NextCursor(visits[..|visits| - 1]))|
              <= |Select(visits[0].log, workspace, f, Top)|
  {
    var n := |visits| - 1;
    if n > 0 {
      var front, v := visits[..n], visits[n];
      assert front[0] == visits[0] && front[n - 1] == visits[n - 1] && front[..n - 1] == visits[..n - 1];
      QuietWalkEnds(workspace, f, front);
      WalkShrinks(workspace, f, visits[n - 1], NextCursor(front[..n - 1]), v.log);
    }
  }
}
