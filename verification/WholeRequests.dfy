/** What each request comes to, from its first step to its last, when nothing commits in
    between, and what its steps leave alone when something does. */
module WholeRequests {
  import opened Outcomes
  import opened Envelope
  import opened Ordering
  import opened Schema
  import opened Transactions
  import opened Listing
  import opened PromotionPlan
  import opened PromotionEffect
  import opened Requests

  // ---- Running a few steps --------------------------------------------------------------

  lemma OneMoreStep(m: Key, s: System, h: History, actions: seq<Action>, a: Action)
    ensures Run(m, s, actions + [a]) == Apply(m, Run(m, s, actions), a)
    ensures ObserveAll(m, s, h, actions + [a]) == Observe(m, Run(m, s, actions), ObserveAll(m, s, h, actions), a)
  {
    assert (actions + [a])[..|actions + [a]| - 1] == actions;
  }

  lemma OneStep(m: Key, s: System, h: History, a: Action)
    ensures Run(m, s, [a]) == Apply(m, s, a) && ObserveAll(m, s, h, [a]) == Observe(m, s, h, a)
  {
    OneMoreStep(m, s, h, [], a);
    assert [] + [a] == [a];
  }

  lemma TwoSteps(m: Key, s: System, h: History, a: Action, b: Action)
    ensures
      var s1, h1 := Apply(m, s, a), Observe(m, s, h, a);
      Run(m, s, [a, b]) == Apply(m, s1, b) && ObserveAll(m, s, h, [a, b]) == Observe(m, s1, h1, b)
  {
    hide Apply, Observe;
    OneStep(m, s, h, a);
    OneMoreStep(m, s, h, [a], b);
    assert [a] + [b] == [a, b];
  }

  lemma ThreeSteps(m: Key, s: System, h: History, a: Action, b: Action, c: Action)
    ensures
      var s1, h1 := Apply(m, s, a), Observe(m, s, h, a);
      var s2, h2 := Apply(m, s1, b), Observe(m, s1, h1, b);
      Run(m, s, [a, b, c]) == Apply(m, s2, c) && ObserveAll(m, s, h, [a, b, c]) == Observe(m, s2, h2, c)
  {
    hide Apply, Observe;
    TwoSteps(m, s, h, a, b);
    OneMoreStep(m, s, h, [a, b], c);
    assert [a, b] + [c] == [a, b, c];
  }

  lemma FourSteps(m: Key, s: System, h: History, a: Action, b: Action, c: Action, d: Action)
    ensures
      var s1, h1 := Apply(m, s, a), Observe(m, s, h, a);
      var s2, h2 := Apply(m, s1, b), Observe(m, s1, h1, b);
      var s3, h3 := Apply(m, s2, c), Observe(m, s2, h2, c);
      Run(m, s, [a, b, c, d]) == Apply(m, s3, d) && ObserveAll(m, s, h, [a, b, c, d]) == Observe(m, s3, h3, d)
  {
    hide Apply, Observe;
    ThreeSteps(m, s, h, a, b, c);
    OneMoreStep(m, s, h, [a, b, c], d);
    assert [a, b, c] + [d] == [a, b, c, d];
  }

  // ---- Other requests -------------------------------------------------------------------

  function Actor(a: Action): Option<RequestId> {
    if a.AddEnvironment? then None else Some(a.r)
  }

  /** A step moves its own request only: every other one waits with what it has read. */
  lemma OthersWait(m: Key, s: System, a: Action, q: RequestId)
    requires Actor(a) != Some(q)
    ensures At(Apply(m, s, a), q) == At(s, q)
  {
  }

  /** An abandoned request is gone, and has changed nothing. */
  lemma AbandonedIsGone(m: Key, s: System, h: History, r: RequestId)
    ensures Apply(m, s, Abandon(r)) == System(s.t, s.pending - {r}) && Observe(m, s, h, Abandon(r)) == h
  {
  }

  /** A transaction is a request's last step, whether it commits or not. */
  lemma CommitIsTheLastStep(m: Key, s: System, r: RequestId, id: SecretId)
    ensures r in s.pending && s.pending[r].CreateReady? ==> r !in Apply(m, s, CommitCreate(r, id)).pending
    ensures r in s.pending && s.pending[r].UpdateReady? ==> r !in Apply(m, s, CommitUpdate(r)).pending
    ensures r in s.pending && s.pending[r].RollbackReady? ==> r !in Apply(m, s, CommitRollback(r)).pending
    ensures r in s.pending && s.pending[r].Deleting? ==> r !in Apply(m, s, CommitDelete(r)).pending
    ensures r in s.pending && s.pending[r].PromoteReady? ==> r !in Apply(m, s, CommitPromote(r)).pending
  {
  }

  // ---- Create, update, roll back ----------------------------------------------------------

  /** A new environment is there, with its project and rank; one that is there stays. */
  lemma EnvironmentIsAdded(m: Key, s: System, e: Uuid, project: Uuid, rank: int)
    ensures
      var t' := Apply(m, s, AddEnvironment(e, project, rank)).t;
      && t'.secrets == s.t.secrets && t'.versions == s.t.versions
      && t'.environments ==
           if e !in s.t.environments && rank >= 0 then s.t.environments[e := EnvironmentRow(project, rank)]
           else s.t.environments
  {
  }

  predicate MayCreate(t: Tables, e: Uuid, key: string, value: string, id: SecretId) {
    && e in t.environments && ValidKey(key) && |value| <= 65536
    && id !in t.secrets && forall x | x in t.secrets :: !LiveKey(t, x, e, key)
  }

  /** The steps of a request that has not begun do nothing. */
  lemma NotBegun(m: Key, s: System, h: History, a: Action)
    requires Actor(a).Some? && Actor(a).value !in s.pending
    requires a.SealCreate? || a.ReadRollback? || a.ReadSource? || a.ReadTarget?
      || a.CommitCreate? || a.CommitUpdate? || a.CommitRollback? || a.CommitDelete? || a.CommitPromote?
    ensures Apply(m, s, a) == s && Observe(m, s, h, a) == h
  {
  }

  lemma DropUndoesPut(s: System, r: RequestId, p: Stage)
    requires r !in s.pending
    ensures Drop(Put(s, r, p), r) == s && Put(s, r, p).t == s.t && At(Put(s, r, p), r) == Some(p)
    ensures forall p' :: Put(Put(s, r, p), r, p') == Put(s, r, p')
  {
    assert (s.pending[r := p] - {r}) == s.pending;
  }

  lemma CreateBegins(m: Key, s: System, h: History, r: RequestId, e: Uuid, key: string, value: string)
    requires r !in s.pending
    ensures
      var a := BeginCreate(r, e, key, value);
      && Observe(m, s, h, a) == h
      && Apply(m, s, a) == if e in s.t.environments && ValidKey(key) && |value| <= 65536
                           then Put(s, r, Creating(s.t.environments[e].project, e, key, value)) else s
  {
  }

  lemma CreateSeals(m: Key, s: System, h: History, r: RequestId, p: Stage, draw: Draw)
    requires r !in s.pending && p.Creating?
    ensures
      var s1, a, aad := Put(s, r, p), SealCreate(r, draw), SecretAAD(p.project, p.environment, p.key);
      && Observe(m, s1, h, a) == h
      && Apply(m, s1, a) == if KeyTaken(s.t, p.environment, p.key) then s
           else Put(s, r, CreateReady(p.project, p.environment, p.key, p.value, Encrypt(m, p.value, aad, draw)))
  {
    DropUndoesPut(s, r, p);
    hide Encrypt, SecretAAD, KeyTaken;
  }

  lemma CreateCommits(m: Key, s: System, h: History, r: RequestId, p: Stage, id: SecretId)
    requires h.Keys == s.t.secrets.Keys && r !in s.pending && p.CreateReady? && p.environment in s.t.environments
    requires !KeyTaken(s.t, p.environment, p.key)
    ensures
      var s1, a := Put(s, r, p), CommitCreate(r, id);
      var s', h' := Apply(m, s1, a), Observe(m, s1, h, a);
      && s'.pending == s.pending
      && if id !in s.t.secrets then h' == h[id := [p.value]] && LiveKey(s'.t, id, p.environment, p.key)
         else s'.t == s.t && h' == h
  {
    DropUndoesPut(s, r, p);
    assert [] + [p.value] == [p.value];
    hide KeyTaken;
  }

  /** A create starts a list of one value under a live key, and is otherwise refused. */
  lemma CreateRun(m: Key, s: System, h: History, r: RequestId, e: Uuid, key: string, value: string, draw: Draw,
                  id: SecretId)
    requires Inv(m, s, h) && r !in s.pending
    ensures
      var actions := [BeginCreate(r, e, key, value), SealCreate(r, draw), CommitCreate(r, id)];
      var s', h' := Run(m, s, actions), ObserveAll(m, s, h, actions);
      && s'.pending == s.pending
      && if MayCreate(s.t, e, key, value, id) then h' == h[id := [value]] && LiveKey(s'.t, id, e, key)
         else s'.t == s.t && h' == h
  {
    ThreeSteps(m, s, h, BeginCreate(r, e, key, value), SealCreate(r, draw), CommitCreate(r, id));
    assert h.Keys == s.t.secrets.Keys;
    CreateBegins(m, s, h, r, e, key, value);
    NotBegun(m, s, h, SealCreate(r, draw));
    NotBegun(m, s, h, CommitCreate(r, id));
    hide Apply, Observe, Inv, ObserveAll, Run, Encrypt, LiveKey, ValidKey;
    if e in s.t.environments && ValidKey(key) && |value| <= 65536 {
      var p := Creating(s.t.environments[e].project, e, key, value);
      CreateSeals(m, s, h, r, p, draw);
      if !KeyTaken(s.t, e, key) {
        var sealed := Encrypt(m, value, SecretAAD(p.project, e, key), draw);
        CreateCommits(m, s, h, r, CreateReady(p.project, e, key, value, sealed), id);
      }
    }
  }

  predicate MayUpdate(t: Tables, id: SecretId, value: string, expected: int) {
    Live(t, id) && |value| <= 65536 && (expected <= 0 || expected == t.secrets[id].current)
  }

  /** An update appends its value to the list of a live secret, if the secret is at the
      version it expects, and is otherwise refused. */
  lemma UpdateRun(m: Key, s: System, h: History, r: RequestId, id: SecretId, value: string, expected: int, draw: Draw)
    requires Inv(m, s, h) && r !in s.pending
    ensures
      var actions := [BeginUpdate(r, id, value, expected, draw), CommitUpdate(r)];
      var s', h' := Run(m, s, actions), ObserveAll(m, s, h, actions);
      && s'.pending == s.pending
      && if MayUpdate(s.t, id, value, expected) then id in h && h' == h[id := h[id] + [value]]
         else s'.t == s.t && h' == h
  {
    TwoSteps(m, s, h, BeginUpdate(r, id, value, expected, draw), CommitUpdate(r));
    hide Encrypt;
  }

  predicate MayRollBack(t: Tables, id: SecretId, version: int) {
    Live(t, id) && 1 <= version < t.secrets[id].current
  }

  /** A rollback appends a copy of an earlier entry, and is otherwise refused. */
  lemma RollbackRun(m: Key, s: System, h: History, r: RequestId, id: SecretId, version: int)
    requires Inv(m, s, h) && r !in s.pending
    ensures
      var actions := [BeginRollback(r, id, version), ReadRollback(r), CommitRollback(r)];
      var s', h' := Run(m, s, actions), ObserveAll(m, s, h, actions);
      && s'.pending == s.pending
      && if MayRollBack(s.t, id, version)
         then id in h && version <= |h[id]| && h' == h[id := h[id] + [h[id][version - 1]]]
         else s'.t == s.t && h' == h
  {
    ThreeSteps(m, s, h, BeginRollback(r, id, version), ReadRollback(r), CommitRollback(r));
    RollbackBegins(m, s, h, r, id, version);
    NotBegun(m, s, h, ReadRollback(r));
    NotBegun(m, s, h, CommitRollback(r));
    RowsMatch(m, s, h, id, version);
    hide Apply, Observe, Inv, ObserveAll, Run;
    if Live(s.t, id) && version != s.t.secrets[id].current {
      RollbackReads(m, s, h, r, id, version);
      if version >= 0 && VersionKey(id, version) in s.t.versions {
        RollbackCommits(m, s, h, r, id, version);
      }
    }
  }

  lemma RowsMatch(m: Key, s: System, h: History, id: SecretId, version: int)
    requires Inv(m, s, h)
    ensures id in s.t.secrets <==> id in h
    ensures id in h ==> |h[id]| == s.t.secrets[id].current
    ensures id in h && version >= 0 ==> (VersionKey(id, version) in s.t.versions <==> 1 <= version <= |h[id]|)
  {
    if id in h {
      assert RowRefines(m, s.t, id, h[id]);
    }
  }

  lemma RollbackBegins(m: Key, s: System, h: History, r: RequestId, id: SecretId, version: int)
    requires r !in s.pending
    ensures
      var a := BeginRollback(r, id, version);
      && Observe(m, s, h, a) == h
      && Apply(m, s, a) == if Live(s.t, id) && version != s.t.secrets[id].current
                           then Put(s, r, RollingBack(id, version)) else s
  {
  }

  lemma RollbackReads(m: Key, s: System, h: History, r: RequestId, id: SecretId, version: int)
    requires r !in s.pending
    ensures
      var s1, a := Put(s, r, RollingBack(id, version)), ReadRollback(r);
      && Observe(m, s1, h, a) == h
      && Apply(m, s1, a) ==
           if version >= 0 && VersionKey(id, version) in s.t.versions
           then Put(s, r, RollbackReady(id, version, s.t.versions[VersionKey(id, version)])) else s
  {
    DropUndoesPut(s, r, RollingBack(id, version));
  }

  lemma RollbackCommits(m: Key, s: System, h: History, r: RequestId, id: SecretId, version: int)
    requires r !in s.pending && version >= 0 && VersionKey(id, version) in s.t.versions && Live(s.t, id)
    requires id in h && 1 <= version <= |h[id]|
    ensures
      var p := RollbackReady(id, version, s.t.versions[VersionKey(id, version)]);
      var s1, a := Put(s, r, p), CommitRollback(r);
      Apply(m, s1, a).pending == s.pending && Observe(m, s1, h, a) == h[id := h[id] + [h[id][version - 1]]]
  {
    DropUndoesPut(s, r, RollbackReady(id, version, s.t.versions[VersionKey(id, version)]));
  }

  // ---- Delete -----------------------------------------------------------------------------

  /** Whatever has committed since the delete began: when it commits, the secret is gone for
      readers, its key is free, and no list and no other row changes. */
  lemma DeleteCommits(m: Key, s: System, h: History, r: RequestId, id: SecretId)
    requires Inv(m, s, h) && At(s, r) == Some(Deleting(id))
    ensures
      var t', h' := Apply(m, s, CommitDelete(r)).t, Observe(m, s, h, CommitDelete(r));
      && h' == h && !Live(t', id) && t'.versions == s.t.versions
      && (forall x | x in s.t.secrets && x != id :: x in t'.secrets && t'.secrets[x] == s.t.secrets[x])
      && (Live(s.t, id) ==> !KeyTaken(t', s.t.secrets[id].environment, s.t.secrets[id].key))
  {
    DeleteTxDeletes(s.t, id);
    hide DeleteTx;
  }

  lemma DeleteRun(m: Key, s: System, h: History, r: RequestId, id: SecretId)
    requires Inv(m, s, h) && r !in s.pending
    ensures
      var actions := [BeginDelete(r, id), CommitDelete(r)];
      var s', h' := Run(m, s, actions), ObserveAll(m, s, h, actions);
      && s'.pending == s.pending && h' == h && !Live(s'.t, id)
      && (Live(s.t, id) ==> !KeyTaken(s'.t, s.t.secrets[id].environment, s.t.secrets[id].key))
  {
    TwoSteps(m, s, h, BeginDelete(r, id), CommitDelete(r));
    DeleteTxDeletes(s.t, id);
    hide DeleteTx;
  }

  /** A deleted secret never comes back, whatever any requests do. */
  lemma DeletedForGood(m: Key, s: System, h: History, actions: seq<Action>, id: SecretId)
    requires Inv(m, s, h) && id in s.t.secrets && !Live(s.t, id)
    ensures id in Run(m, s, actions).t.secrets && !Live(Run(m, s, actions).t, id)
  {
    hide Inv, Run;
    RunRefines(m, s, h, actions);
    assert RowGrows(s.t.secrets[id], Run(m, s, actions).t.secrets[id]);
  }

  // ---- Promotion ----------------------------------------------------------------------------

  /** Both environments are of the project, and the target is any that ranks higher. */
  predicate MayPromote(t: Tables, r: PromotionEffect.Request) {
    && r.source in t.environments && t.environments[r.source].project == r.project
    && r.target in t.environments && t.environments[r.target].project == r.project
    && t.environments[r.source].rank < t.environments[r.target].rank
  }

  function PromotionSteps(q: RequestId, r: PromotionEffect.Request): seq<Action> {
    [BeginPromote(q, r.project, r.source, r.target, r.keys), ReadSource(q, r.sourceList),
     ReadTarget(q, r.targetList, r.draws, r.ids), CommitPromote(q)]
  }

  ghost predicate ReadsTheTables(m: Key, t: Tables, r: PromotionEffect.Request) {
    && Lists(m, t, r.project, r.source, r.sourceList) && Lists(m, t, r.project, r.target, r.targetList)
    && |r.draws| == |r.ids| == |PendingsOf(r)|
    && (forall i | 0 <= i < |r.ids| :: r.ids[i] !in t.secrets)
    && (forall i, j | 0 <= i < j < |r.ids| :: r.ids[i] != r.ids[j])
  }

  /** A promotion to any higher environment gives each wanted key of the source the source's
      value and leaves every other key of every environment alone; any other is refused. */
  lemma PromotionRun(m: Key, s: System, h: History, q: RequestId, r: PromotionEffect.Request, environment: Uuid,
                     key: string)
    requires Inv(m, s, h) && q !in s.pending && ReadsTheTables(m, s.t, r)
    ensures h.Keys == s.t.secrets.Keys
    ensures
      var s', h' := Run(m, s, PromotionSteps(q, r)), ObserveAll(m, s, h, PromotionSteps(q, r));
      && s'.pending == s.pending && h'.Keys == s'.t.secrets.Keys
      && if MayPromote(s.t, r) then
           Current(s'.t, h', environment, key) ==
             if environment == r.target && (r.keys == [] || key in r.keys) && Current(s.t, h, r.source, key).Some?
             then Current(s.t, h, r.source, key) else Current(s.t, h, environment, key)
         else s'.t == s.t && h' == h
  {
    FourSteps(m, s, h, BeginPromote(q, r.project, r.source, r.target, r.keys), ReadSource(q, r.sourceList),
              ReadTarget(q, r.targetList, r.draws, r.ids), CommitPromote(q));
    PromotionBegins(m, s, h, q, r);
    NotBegun(m, s, h, ReadSource(q, r.sourceList));
    NotBegun(m, s, h, ReadTarget(q, r.targetList, r.draws, r.ids));
    NotBegun(m, s, h, CommitPromote(q));
    if MayPromote(s.t, r) {
      PromotionTakesEffect(m, s.t, h, r, environment, key);
      hide Apply, Observe, Inv, ObserveAll, Run, Lists, Current, PromoteTx, PushAll, EntriesOf, PendingsOf;
      PromotionReadsSource(m, s, h, q, r);
      PromotionReadsTarget(m, s, h, q, r);
      PromotionCommits(m, s, h, q, r);
    }
  }

  lemma PromotionBegins(m: Key, s: System, h: History, q: RequestId, r: PromotionEffect.Request)
    requires q !in s.pending
    ensures
      var a := BeginPromote(q, r.project, r.source, r.target, r.keys);
      && Observe(m, s, h, a) == h
      && Apply(m, s, a) == if MayPromote(s.t, r)
                           then Put(s, q, Promoting(r.project, r.source, r.target, r.keys)) else s
  {
  }

  lemma PromotionReadsSource(m: Key, s: System, h: History, q: RequestId, r: PromotionEffect.Request)
    requires q !in s.pending && Lists(m, s.t, r.project, r.source, r.sourceList)
    ensures
      var s1, a := Put(s, q, Promoting(r.project, r.source, r.target, r.keys)), ReadSource(q, r.sourceList);
      && Apply(m, s1, a) == Put(s, q, PromoteSourced(r.project, r.source, r.target, r.keys, r.sourceList))
      && Observe(m, s1, h, a) == h
  {
    hide Lists;
    DropUndoesPut(s, q, Promoting(r.project, r.source, r.target, r.keys));
  }

  lemma PromotionReadsTarget(m: Key, s: System, h: History, q: RequestId, r: PromotionEffect.Request)
    requires q !in s.pending && Lists(m, s.t, r.project, r.target, r.targetList)
    requires |r.draws| == |r.ids| == |PendingsOf(r)|
    ensures
      var s2 := Put(s, q, PromoteSourced(r.project, r.source, r.target, r.keys, r.sourceList));
      var a := ReadTarget(q, r.targetList, r.draws, r.ids);
      && Apply(m, s2, a) == Put(s, q, PromoteReady(r.project, r.source, r.target, EntriesOf(m, r)))
      && Observe(m, s2, h, a) == h
  {
    hide Lists, SealAll, ToApply, ByKey;
    DropUndoesPut(s, q, PromoteSourced(r.project, r.source, r.target, r.keys, r.sourceList));
  }

  lemma PromotionCommits(m: Key, s: System, h: History, q: RequestId, r: PromotionEffect.Request)
    requires q !in s.pending && |r.draws| == |r.ids| == |PendingsOf(r)|
    requires PromoteTx(s.t, r.project, r.target, EntriesOf(m, r)).Ok?
    ensures
      var s3 := Put(s, q, PromoteReady(r.project, r.source, r.target, EntriesOf(m, r)));
      && Apply(m, s3, CommitPromote(q)) == System(PromoteTx(s.t, r.project, r.target, EntriesOf(m, r)).value, s.pending)
      && Observe(m, s3, h, CommitPromote(q)) == PushAll(h, EntriesOf(m, r))
  {
    DropUndoesPut(s, q, PromoteReady(r.project, r.source, r.target, EntriesOf(m, r)));
    hide PromoteTx, PushAll, EntriesOf;
  }
}
