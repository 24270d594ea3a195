/** Random material is drawn for each value anew: if no two draws of a run agree in their
    data key, in their nonce or in the nonce for wrapping, then no two stored versions do,
    unless one is a copy of the other, which only a rollback of the same secret makes. */
module FreshKeys {
  import opened Outcomes
  import opened Envelope
  import opened Schema
  import opened Transactions
  import opened Listing
  import opened PromotionPlan
  import opened Requests
  import opened Guarantees

  /** What a draw consists of. */
  datatype Part = DataKey | ValueNonce | WrappingNonce

  function DrawPart(d: Draw, part: Part): nat {
    match part
    case DataKey => d.dek
    case ValueNonce => d.nonce
    case WrappingNonce => d.wrapNonce
  }

  /** What a stored value was sealed with. */
  function PartOf(m: Key, x: Sealed, part: Part): Result<nat> {
    match part
    case DataKey => Unwrap(m, x.wrapped)
    case ValueNonce => Ok(x.nonce)
    case WrappingNonce => if x.wrapped.Wrapped? then Ok(x.wrapped.prefix) else Err(DecryptFailed)
  }

  lemma SealedWithItsDraw(m: Key, value: string, aad: Bytes, draw: Draw, part: Part)
    ensures PartOf(m, Encrypt(m, value, aad, draw), part) == Ok(DrawPart(draw, part))
  {
  }

  /** The draws a step makes. */
  function DrawsOf(a: Action): seq<Draw> {
    match a
    case SealCreate(_, draw) => [draw]
    case BeginUpdate(_, _, _, _, draw) => [draw]
    case ReadTarget(_, _, draws, _) => draws
    case _ => []
  }

  function AllDraws(actions: seq<Action>): seq<Draw> {
    if actions == [] then [] else AllDraws(actions[..|actions| - 1]) + DrawsOf(actions[|actions| - 1])
  }

  ghost predicate NoneTwice(draws: seq<Draw>, part: Part) {
    forall i, j | 0 <= i < j < |draws| :: DrawPart(draws[i], part) != DrawPart(draws[j], part)
  }

  ghost predicate IsDrawn(m: Key, x: Sealed, draws: seq<Draw>, part: Part) {
    exists i :: 0 <= i < |draws| && PartOf(m, x, part) == Ok(DrawPart(draws[i], part))
  }

  /** The values that a waiting request has sealed and not yet stored. */
  function Unstored(p: Stage): seq<Sealed> {
    match p
    case CreateReady(_, _, _, _, sealed) => [sealed]
    case UpdateReady(_, _, _, sealed) => [sealed]
    case PromoteReady(_, _, _, entries) => SealedIn(entries)
    case _ => []
  }

  function SealedIn(entries: seq<Entry>): seq<Sealed> {
    seq(|entries|, i requires 0 <= i < |entries| => entries[i].sealed)
  }

  // ---- The invariant --------------------------------------------------------------------

  /** Stored versions that share a part are the same row of the same secret. */
  ghost predicate StoredApart(m: Key, versions: map<VersionKey, Sealed>, part: Part) {
    forall k, k' | k in versions && k' in versions && PartOf(m, versions[k], part) == PartOf(m, versions[k'], part) ::
      k.secret == k'.secret && versions[k] == versions[k']
  }

  /** A value that is not stored shares no part with one that is. */
  ghost predicate IsNew(m: Key, versions: map<VersionKey, Sealed>, x: Sealed, part: Part) {
    forall k | k in versions :: PartOf(m, versions[k], part) != PartOf(m, x, part)
  }

  ghost predicate AllNew(m: Key, versions: map<VersionKey, Sealed>, xs: seq<Sealed>, part: Part) {
    && (forall i | 0 <= i < |xs| :: IsNew(m, versions, xs[i], part))
    && (forall i, j | 0 <= i < j < |xs| :: PartOf(m, xs[i], part) != PartOf(m, xs[j], part))
  }

  ghost predicate Disjoint(m: Key, xs: seq<Sealed>, ys: seq<Sealed>, part: Part) {
    forall i, j | 0 <= i < |xs| && 0 <= j < |ys| :: PartOf(m, xs[i], part) != PartOf(m, ys[j], part)
  }

  ghost predicate AllDrawn(m: Key, s: System, draws: seq<Draw>, part: Part) {
    && (forall k | k in s.t.versions :: IsDrawn(m, s.t.versions[k], draws, part))
    && (forall r | r in s.pending :: SeqDrawn(m, Unstored(s.pending[r]), draws, part))
  }

  ghost predicate SeqDrawn(m: Key, xs: seq<Sealed>, draws: seq<Draw>, part: Part) {
    forall i | 0 <= i < |xs| :: IsDrawn(m, xs[i], draws, part)
  }

  ghost predicate Apart(m: Key, s: System, part: Part) {
    && StoredApart(m, s.t.versions, part)
    && (forall r | r in s.pending :: AllNew(m, s.t.versions, Unstored(s.pending[r]), part))
    && (forall r, q | r in s.pending && q in s.pending && r != q ::
          Disjoint(m, Unstored(s.pending[r]), Unstored(s.pending[q]), part))
  }

  // ---- Drawing -----------------------------------------------------------------------------

  /** Values sealed with draws that have not been made before. */
  ghost predicate JustSealed(m: Key, xs: seq<Sealed>, now: seq<Draw>, part: Part) {
    |xs| == |now| && forall i | 0 <= i < |xs| :: PartOf(m, xs[i], part) == Ok(DrawPart(now[i], part))
  }

  lemma NewDrawsAreNew(m: Key, s: System, before: seq<Draw>, now: seq<Draw>, xs: seq<Sealed>, part: Part)
    requires NoneTwice(before + now, part) && AllDrawn(m, s, before, part) && JustSealed(m, xs, now, part)
    ensures AllNew(m, s.t.versions, xs, part) && SeqDrawn(m, xs, before + now, part)
    ensures forall r | r in s.pending :: Disjoint(m, Unstored(s.pending[r]), xs, part)
  {
    var all := before + now;
    forall i | 0 <= i < |xs| ensures IsDrawn(m, xs[i], all, part) {
      assert all[|before| + i] == now[i];
    }
    forall x, i | IsDrawn(m, x, before, part) && 0 <= i < |xs| ensures PartOf(m, x, part) != PartOf(m, xs[i], part) {
      var k :| 0 <= k < |before| && PartOf(m, x, part) == Ok(DrawPart(before[k], part));
      assert all[k] == before[k] && all[|before| + i] == now[i];
    }
    forall i, j | 0 <= i < j < |xs| ensures PartOf(m, xs[i], part) != PartOf(m, xs[j], part) {
      assert all[|before| + i] == now[i] && all[|before| + j] == now[j];
    }
    forall r | r in s.pending ensures Disjoint(m, Unstored(s.pending[r]), xs, part) {
      assert SeqDrawn(m, Unstored(s.pending[r]), before, part);
    }
  }

  lemma StillDrawn(m: Key, x: Sealed, before: seq<Draw>, now: seq<Draw>, part: Part)
    requires IsDrawn(m, x, before, part)
    ensures IsDrawn(m, x, before + now, part)
  {
    var k :| 0 <= k < |before| && PartOf(m, x, part) == Ok(DrawPart(before[k], part));
    assert (before + now)[k] == before[k];
  }

  lemma AllStillDrawn(m: Key, s: System, before: seq<Draw>, now: seq<Draw>, part: Part)
    requires AllDrawn(m, s, before, part)
    ensures AllDrawn(m, s, before + now, part)
  {
    forall x | IsDrawn(m, x, before, part) ensures IsDrawn(m, x, before + now, part) {
      StillDrawn(m, x, before, now, part);
    }
    forall r | r in s.pending ensures SeqDrawn(m, Unstored(s.pending[r]), before + now, part) {
      assert SeqDrawn(m, Unstored(s.pending[r]), before, part);
    }
  }

  predicate Seals(a: Action) {
    a.SealCreate? || a.BeginUpdate? || a.ReadTarget?
  }

  predicate Stores(a: Action) {
    a.CommitCreate? || a.CommitUpdate? || a.CommitRollback? || a.CommitPromote?
  }

  // ---- Steps that seal -----------------------------------------------------------------------

  lemma SealingStep(m: Key, s: System, a: Action, part: Part)
    requires Seals(a)
    ensures
      var s' := Apply(m, s, a);
      && s'.t == s.t
      && (forall q | q in s'.pending && q != a.r :: q in s.pending && s'.pending[q] == s.pending[q])
      && (a.r in s'.pending ==>
            (a.r in s.pending && s'.pending[a.r] == s.pending[a.r])
            || JustSealed(m, Unstored(s'.pending[a.r]), DrawsOf(a), part))
  {
    hide Encrypt, PartOf, DrawPart, ToApply, Lists;
    forall value, aad, draw ensures PartOf(m, Encrypt(m, value, aad, draw), part) == Ok(DrawPart(draw, part)) {
      SealedWithItsDraw(m, value, aad, draw, part);
    }
  }

  lemma SealingKeeps(m: Key, s: System, s': System, r: RequestId, before: seq<Draw>, now: seq<Draw>, part: Part)
    requires AllDrawn(m, s, before, part) && Apart(m, s, part) && NoneTwice(before + now, part) && s'.t == s.t
    requires forall q | q in s'.pending && q != r :: q in s.pending && s'.pending[q] == s.pending[q]
    requires r in s'.pending ==>
               (r in s.pending && s'.pending[r] == s.pending[r]) || JustSealed(m, Unstored(s'.pending[r]), now, part)
    ensures AllDrawn(m, s', before + now, part) && Apart(m, s', part)
  {
    hide Unstored, IsDrawn, PartOf, NoneTwice, StoredApart, JustSealed, AllNew, Disjoint, SeqDrawn;
    AllStillDrawn(m, s, before, now, part);
    if r in s'.pending && JustSealed(m, Unstored(s'.pending[r]), now, part) {
      NewDrawsAreNew(m, s, before, now, Unstored(s'.pending[r]), part);
      forall q | q in s.pending
        ensures Disjoint(m, Unstored(s'.pending[r]), Unstored(s.pending[q]), part)
      {
        DisjointBothWays(m, Unstored(s.pending[q]), Unstored(s'.pending[r]), part);
      }
    }
  }

  lemma DisjointBothWays(m: Key, xs: seq<Sealed>, ys: seq<Sealed>, part: Part)
    requires Disjoint(m, xs, ys, part)
    ensures Disjoint(m, ys, xs, part)
  {
  }

  // ---- Steps that neither seal nor store --------------------------------------------------------

  lemma QuietStep(m: Key, s: System, a: Action)
    requires !Seals(a) && !Stores(a)
    ensures
      var s' := Apply(m, s, a);
      && s'.t.versions == s.t.versions && DrawsOf(a) == []
      && forall q | q in s'.pending :: (q in s.pending && s'.pending[q] == s.pending[q]) || Unstored(s'.pending[q]) == []
  {
    hide Lists;
  }

  lemma QuietKeeps(m: Key, s: System, s': System, draws: seq<Draw>, part: Part)
    requires AllDrawn(m, s, draws, part) && Apart(m, s, part) && s'.t.versions == s.t.versions
    requires forall q | q in s'.pending :: (q in s.pending && s'.pending[q] == s.pending[q]) || Unstored(s'.pending[q]) == []
    ensures AllDrawn(m, s', draws, part) && Apart(m, s', part)
  {
    hide Unstored, IsDrawn, PartOf, StoredApart, IsNew;
  }

  // ---- Steps that store --------------------------------------------------------------------------

  /** Every version is one of before, or one of the values. */
  ghost predicate TakenFrom(versions: map<VersionKey, Sealed>, versions': map<VersionKey, Sealed>, xs: seq<Sealed>) {
    forall k | k in versions' :: versions'[k] in versions.Values || versions'[k] in xs
  }

  lemma StoringKeeps(m: Key, s: System, s': System, r: RequestId, draws: seq<Draw>, part: Part)
    requires AllDrawn(m, s, draws, part) && Apart(m, s, part) && r in s.pending && s'.pending == s.pending - {r}
    requires TakenFrom(s.t.versions, s'.t.versions, Unstored(s.pending[r])) && StoredApart(m, s'.t.versions, part)
    ensures AllDrawn(m, s', draws, part) && Apart(m, s', part)
  {
    hide PartOf, Unstored;
    var xs := Unstored(s.pending[r]);
    forall k | k in s'.t.versions ensures IsDrawn(m, s'.t.versions[k], draws, part) {
      var x := s'.t.versions[k];
      if x in s.t.versions.Values {
        var k0 :| k0 in s.t.versions && s.t.versions[k0] == x;
      } else {
        var i :| 0 <= i < |xs| && xs[i] == x;
        assert SeqDrawn(m, xs, draws, part);
      }
    }
    forall q | q in s'.pending ensures AllNew(m, s'.t.versions, Unstored(s.pending[q]), part) {
      StillNew(m, s.t.versions, s'.t.versions, xs, Unstored(s.pending[q]), part);
    }
  }

  lemma StillNew(m: Key, versions: map<VersionKey, Sealed>, versions': map<VersionKey, Sealed>, xs: seq<Sealed>,
                 ys: seq<Sealed>, part: Part)
    requires TakenFrom(versions, versions', xs) && AllNew(m, versions, ys, part) && Disjoint(m, xs, ys, part)
    ensures AllNew(m, versions', ys, part)
  {
    hide PartOf;
    forall i, k | 0 <= i < |ys| && k in versions' ensures PartOf(m, versions'[k], part) != PartOf(m, ys[i], part) {
      if versions'[k] in versions.Values {
        var k0 :| k0 in versions && versions[k0] == versions'[k];
        assert IsNew(m, versions, ys[i], part);
      } else {
        var j :| 0 <= j < |xs| && xs[j] == versions'[k];
      }
    }
  }

  lemma StoreNew(m: Key, versions: map<VersionKey, Sealed>, k: VersionKey, x: Sealed, part: Part)
    requires StoredApart(m, versions, part) && IsNew(m, versions, x, part)
    ensures StoredApart(m, versions[k := x], part)
  {
  }

  lemma StoreCopy(m: Key, versions: map<VersionKey, Sealed>, k: VersionKey, from: VersionKey, part: Part)
    requires StoredApart(m, versions, part) && from in versions && k.secret == from.secret
    ensures StoredApart(m, versions[k := versions[from]], part)
  {
  }

  /** A promotion stores its values one after the other. */
  lemma {:induction false} PromotionStores(m: Key, t: Tables, project: Uuid, environment: Uuid, entries: seq<Entry>,
                                           part: Part)
    requires PromoteTx(t, project, environment, entries).Ok?
    requires StoredApart(m, t.versions, part) && AllNew(m, t.versions, SealedIn(entries), part)
    ensures
      var versions := PromoteTx(t, project, environment, entries).value.versions;
      TakenFrom(t.versions, versions, SealedIn(entries)) && StoredApart(m, versions, part)
  {
    if entries != [] {
      hide *;
      var n := |entries| - 1;
      var front, e := entries[..n], entries[n];
      SealedInFront(entries);
      PromoteTxUnfolds(t, project, environment, entries);
      FrontIsNew(m, t.versions, SealedIn(front), e.sealed, part);
      PromotionStores(m, t, project, environment, front, part);
      var t1 := PromoteTx(t, project, environment, front).value;
      StillNew(m, t.versions, t1.versions, SealedIn(front), [e.sealed], part);
      FirstIsNew(m, t1.versions, e.sealed, part);
      var k := OneStores(t1, project, environment, e);
      StoreNew(m, t1.versions, k, e.sealed, part);
      TakenOneMore(t.versions, t1.versions, SealedIn(front), k, e.sealed);
    } else {
      NoneTaken(t.versions);
    }
  }

  lemma SealedInFront(entries: seq<Entry>)
    requires entries != []
    ensures SealedIn(entries) == SealedIn(entries[..|entries| - 1]) + [entries[|entries| - 1].sealed]
  {
  }

  lemma FirstIsNew(m: Key, versions: map<VersionKey, Sealed>, x: Sealed, part: Part)
    requires AllNew(m, versions, [x], part)
    ensures IsNew(m, versions, x, part)
  {
    assert [x][0] == x;
  }

  lemma NoneTaken(versions: map<VersionKey, Sealed>)
    ensures TakenFrom(versions, versions, SealedIn([]))
  {
  }

  lemma FrontIsNew(m: Key, versions: map<VersionKey, Sealed>, xs: seq<Sealed>, x: Sealed, part: Part)
    requires AllNew(m, versions, xs + [x], part)
    ensures AllNew(m, versions, xs, part) && AllNew(m, versions, [x], part) && Disjoint(m, xs, [x], part)
  {
    hide PartOf;
    var all := xs + [x];
    assert all[|xs|] == x && forall i | 0 <= i < |xs| :: all[i] == xs[i];
  }

  lemma OneStores(t: Tables, project: Uuid, environment: Uuid, e: Entry) returns (k: VersionKey)
    requires PromoteOne(t, project, environment, e).Ok?
    ensures PromoteOne(t, project, environment, e).value.versions == t.versions[k := e.sealed]
  {
    k := VersionKey(Destination(e), if e.target.Some? then t.secrets[Destination(e)].current + 1 else 1);
  }

  lemma TakenOneMore(versions: map<VersionKey, Sealed>, versions1: map<VersionKey, Sealed>, xs: seq<Sealed>,
                     k: VersionKey, x: Sealed)
    requires TakenFrom(versions, versions1, xs)
    ensures TakenFrom(versions, versions1[k := x], xs + [x])
  {
  }

  /** One value is stored, or none. */
  lemma OneIsStored(m: Key, s: System, s': System, r: RequestId, sealed: Sealed, k: VersionKey, part: Part)
    requires Apart(m, s, part) && r in s.pending && Unstored(s.pending[r]) == [sealed]
    requires s'.t.versions == s.t.versions || s'.t.versions == s.t.versions[k := sealed]
    ensures TakenFrom(s.t.versions, s'.t.versions, [sealed]) && StoredApart(m, s'.t.versions, part)
  {
    assert IsNew(m, s.t.versions, Unstored(s.pending[r])[0], part);
    hide PartOf, IsNew, StoredApart, Unstored;
    StoreNew(m, s.t.versions, k, sealed, part);
  }

  lemma CreateStores(m: Key, s: System, a: Action, part: Part)
    requires Apart(m, s, part) && a.CommitCreate? && a.r in s.pending && s.pending[a.r].CreateReady?
    ensures
      var s' := Apply(m, s, a);
      && s'.pending == s.pending - {a.r}
      && TakenFrom(s.t.versions, s'.t.versions, Unstored(s.pending[a.r])) && StoredApart(m, s'.t.versions, part)
  {
    hide TakenFrom, StoredApart, Apart, KeyTaken;
    OneIsStored(m, s, Apply(m, s, a), a.r, s.pending[a.r].sealed, VersionKey(a.id, 1), part);
  }

  lemma UpdateStores(m: Key, s: System, a: Action, part: Part)
    requires Apart(m, s, part) && a.CommitUpdate? && a.r in s.pending && s.pending[a.r].UpdateReady?
    ensures
      var s' := Apply(m, s, a);
      && s'.pending == s.pending - {a.r}
      && TakenFrom(s.t.versions, s'.t.versions, Unstored(s.pending[a.r])) && StoredApart(m, s'.t.versions, part)
  {
    hide TakenFrom, StoredApart, Apart;
    var p := s.pending[a.r];
    var k := VersionKey(p.id, if p.id in s.t.secrets then s.t.secrets[p.id].current + 1 else 1);
    OneIsStored(m, s, Apply(m, s, a), a.r, p.sealed, k, part);
  }

  lemma RollbackStores(m: Key, s: System, a: Action, part: Part)
    requires Apart(m, s, part) && a.CommitRollback? && a.r in s.pending && s.pending[a.r].RollbackReady?
    requires Consistent(m, s.t, s.pending[a.r])
    ensures
      var s' := Apply(m, s, a);
      && s'.pending == s.pending - {a.r}
      && TakenFrom(s.t.versions, s'.t.versions, Unstored(s.pending[a.r])) && StoredApart(m, s'.t.versions, part)
  {
    var s', p := Apply(m, s, a), s.pending[a.r];
    hide PartOf, StoredApart;
    if s'.t.versions != s.t.versions {
      var k := VersionKey(p.id, s.t.secrets[p.id].current + 1);
      assert s'.t.versions == s.t.versions[k := p.copied];
      StoreCopy(m, s.t.versions, k, VersionKey(p.id, p.version), part);
    }
  }

  lemma PromoteStores(m: Key, s: System, a: Action, part: Part)
    requires Apart(m, s, part) && a.CommitPromote? && a.r in s.pending && s.pending[a.r].PromoteReady?
    ensures
      var s' := Apply(m, s, a);
      && s'.pending == s.pending - {a.r}
      && TakenFrom(s.t.versions, s'.t.versions, Unstored(s.pending[a.r])) && StoredApart(m, s'.t.versions, part)
  {
    hide PartOf, StoredApart, AllNew, Disjoint, PromoteTx;
    var p := s.pending[a.r];
    assert Unstored(p) == SealedIn(p.entries);
    hide Unstored, SealedIn;
    if PromoteTx(s.t, p.project, p.target, p.entries).Ok? {
      PromotionStores(m, s.t, p.project, p.target, p.entries, part);
    }
  }

  lemma NothingStored(m: Key, s: System, a: Action)
    requires Stores(a)
    requires a.r !in s.pending || !(match a
               case CommitCreate(_, _) => s.pending[a.r].CreateReady?
               case CommitUpdate(_) => s.pending[a.r].UpdateReady?
               case CommitRollback(_) => s.pending[a.r].RollbackReady?
               case _ => s.pending[a.r].PromoteReady?)
    ensures Apply(m, s, a) == s
  {
  }

  // ---- Runs --------------------------------------------------------------------------------------

  lemma StepKeepsApart(m: Key, s: System, h: History, a: Action, before: seq<Draw>, part: Part)
    requires Inv(m, s, h) && AllDrawn(m, s, before, part) && Apart(m, s, part) && NoneTwice(before + DrawsOf(a), part)
    ensures AllDrawn(m, Apply(m, s, a), before + DrawsOf(a), part) && Apart(m, Apply(m, s, a), part)
  {
    hide Apply, AllDrawn, Apart, Unstored, TakenFrom, StoredApart, NoneTwice, JustSealed, Consistent, Sound, Refines;
    var s' := Apply(m, s, a);
    if Seals(a) {
      SealingStep(m, s, a, part);
      SealingKeeps(m, s, s', a.r, before, DrawsOf(a), part);
    } else if !Stores(a) {
      QuietStep(m, s, a);
      QuietKeeps(m, s, s', before, part);
      assert before + [] == before;
    } else {
      assert before + DrawsOf(a) == before;
      if a.r in s.pending && a.CommitCreate? && s.pending[a.r].CreateReady? {
        CreateStores(m, s, a, part);
        StoringKeeps(m, s, s', a.r, before, part);
      } else if a.r in s.pending && a.CommitUpdate? && s.pending[a.r].UpdateReady? {
        UpdateStores(m, s, a, part);
        StoringKeeps(m, s, s', a.r, before, part);
      } else if a.r in s.pending && a.CommitRollback? && s.pending[a.r].RollbackReady? {
        RollbackStores(m, s, a, part);
        StoringKeeps(m, s, s', a.r, before, part);
      } else if a.r in s.pending && a.CommitPromote? && s.pending[a.r].PromoteReady? {
        PromoteStores(m, s, a, part);
        StoringKeeps(m, s, s', a.r, before, part);
      } else {
        NothingStored(m, s, a);
      }
    }
  }

  lemma {:induction false} RunKeepsApart(m: Key, actions: seq<Action>, part: Part)
    requires NoneTwice(AllDraws(actions), part)
    ensures AllDrawn(m, Run(m, EMPTY, actions), AllDraws(actions), part) && Apart(m, Run(m, EMPTY, actions), part)
  {
    if actions != [] {
      var front, a := actions[..|actions| - 1], actions[|actions| - 1];
      FewerDraws(AllDraws(front), DrawsOf(a), part);
      hide Apply, AllDrawn, Apart, NoneTwice, Inv, DrawsOf, Observe;
      RunKeepsApart(m, front, part);
      EmptyIsOk(m);
      RunRefines(m, EMPTY, map[], front);
      StepKeepsApart(m, Run(m, EMPTY, front), ObserveAll(m, EMPTY, map[], front), a, AllDraws(front), part);
    }
  }

  lemma FewerDraws(before: seq<Draw>, now: seq<Draw>, part: Part)
    requires NoneTwice(before + now, part)
    ensures NoneTwice(before, part)
  {
    assert forall i | 0 <= i < |before| :: (before + now)[i] == before[i];
  }

  lemma EmptyIsOk(m: Key)
    ensures Inv(m, EMPTY, map[])
  {
  }

  /** In every reachable state: no two secrets share a data key, a nonce or a wrapping nonce,
      and two versions of one secret share one only if they are the same stored value. */
  lemma NothingIsDrawnForTwo(m: Key, actions: seq<Action>, part: Part, k: VersionKey, k': VersionKey)
    requires NoneTwice(AllDraws(actions), part)
    ensures
      var versions := Run(m, EMPTY, actions).t.versions;
      && (k in versions ==> PartOf(m, versions[k], part).Ok?)
      && (k in versions && k' in versions && PartOf(m, versions[k], part) == PartOf(m, versions[k'], part) ==>
            k.secret == k'.secret && versions[k] == versions[k'])
  {
    hide Run;
    RunKeepsApart(m, actions, part);
    var versions := Run(m, EMPTY, actions).t.versions;
    assert k in versions ==> IsDrawn(m, versions[k], AllDraws(actions), part);
  }
}
