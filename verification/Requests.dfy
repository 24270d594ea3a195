/** Requests running against the store at the same time. The reads a request makes
    before its transaction are separate steps, so anything may commit in between;
    a transaction is one step. Role checks only stop requests, so an unauthorised
    request is one that never begins; any request may be abandoned at any point. */
module Requests {
  import opened Outcomes
  import opened Envelope
  import opened Schema
  import opened Transactions
  import opened Listing
  import opened PromotionPlan
  import opened PromotionEffect

  type RequestId = nat

  const MAX_SECRET_VALUE_LEN := 64 * 1024

  /** Where a request is, and what it has read so far. */
  datatype Stage =
    | Creating(project: Uuid, environment: Uuid, key: string, value: string)
    | CreateReady(project: Uuid, environment: Uuid, key: string, value: string, sealed: Sealed)
    | UpdateReady(id: SecretId, value: string, expected: int, sealed: Sealed)
    | RollingBack(id: SecretId, version: int)
    | RollbackReady(id: SecretId, version: int, copied: Sealed)
    | Deleting(id: SecretId)
    | Promoting(project: Uuid, source: Uuid, target: Uuid, keys: seq<string>)
    | PromoteSourced(project: Uuid, source: Uuid, target: Uuid, keys: seq<string>, values: seq<Resolved>)
    | PromoteReady(project: Uuid, source: Uuid, target: Uuid, entries: seq<Entry>)

  datatype System = System(t: Tables, pending: map<RequestId, Stage>)

  /** One step of one request, with the random draws it makes. */
  datatype Action =
    | AddEnvironment(environment: Uuid, project: Uuid, rank: int)
    | BeginCreate(r: RequestId, environment: Uuid, key: string, value: string)
    | SealCreate(r: RequestId, draw: Draw)
    | CommitCreate(r: RequestId, id: SecretId)
    | BeginUpdate(r: RequestId, id: SecretId, value: string, expected: int, draw: Draw)
    | CommitUpdate(r: RequestId)
    | BeginRollback(r: RequestId, id: SecretId, version: int)
    | ReadRollback(r: RequestId)
    | CommitRollback(r: RequestId)
    | BeginDelete(r: RequestId, id: SecretId)
    | CommitDelete(r: RequestId)
    | BeginPromote(r: RequestId, project: Uuid, source: Uuid, target: Uuid, keys: seq<string>)
    | ReadSource(r: RequestId, values: seq<Resolved>)
    | ReadTarget(r: RequestId, values: seq<Resolved>, draws: seq<Draw>, ids: seq<SecretId>)
    | CommitPromote(r: RequestId)
    | Abandon(r: RequestId)

  function At(s: System, r: RequestId): Option<Stage> {
    if r in s.pending then Some(s.pending[r]) else None
  }

  function Put(s: System, r: RequestId, p: Stage): System {
    s.(pending := s.pending[r := p])
  }

  function Drop(s: System, r: RequestId): System {
    s.(pending := s.pending - {r})
  }

  function Begin(s: System, r: RequestId, p: Stage): System {
    if r in s.pending then s else Put(s, r, p)
  }

  function Finish(s: System, r: RequestId, outcome: Result<Tables>): System {
    Drop(s, r).(t := Committed(s.t, outcome))
  }

  /** A step that is not enabled changes nothing. */
  ghost function Apply(m: Key, s: System, a: Action): System {
    match a
    case AddEnvironment(e, project, rank) =>
      if e in s.t.environments || rank < 0 then s
      else s.(t := s.t.(environments := s.t.environments[e := EnvironmentRow(project, rank)]))
    case BeginCreate(r, e, key, value) =>
      if e !in s.t.environments || !ValidKey(key) || |value| > MAX_SECRET_VALUE_LEN then s
      else Begin(s, r, Creating(s.t.environments[e].project, e, key, value))
    case SealCreate(r, draw) =>
      (match At(s, r)
       case Some(Creating(project, e, key, value)) =>
         if KeyTaken(s.t, e, key) then Drop(s, r)
         else Put(s, r, CreateReady(project, e, key, value, Encrypt(m, value, SecretAAD(project, e, key), draw)))
       case _ => s)
    case CommitCreate(r, id) =>
      (match At(s, r)
       case Some(CreateReady(project, e, key, _, sealed)) => Finish(s, r, CreateTx(s.t, id, project, e, key, sealed))
       case _ => s)
    case BeginUpdate(r, id, value, expected, draw) =>
      if !Live(s.t, id) || |value| > MAX_SECRET_VALUE_LEN then s
      else Begin(s, r, UpdateReady(id, value, expected, Encrypt(m, value, AadOf(s.t.secrets[id]), draw)))
    case CommitUpdate(r) =>
      (match At(s, r)
       case Some(UpdateReady(id, _, expected, sealed)) => Finish(s, r, WriteTx(s.t, id, expected, sealed))
       case _ => s)
    case BeginRollback(r, id, version) =>
      if !Live(s.t, id) || version == s.t.secrets[id].current then s
      else Begin(s, r, RollingBack(id, version))
    case ReadRollback(r) =>
      (match At(s, r)
       case Some(RollingBack(id, version)) =>
         if version < 0 || VersionKey(id, version) !in s.t.versions then Drop(s, r)
         else Put(s, r, RollbackReady(id, version, s.t.versions[VersionKey(id, version)]))
       case _ => s)
    case CommitRollback(r) =>
      (match At(s, r)
       case Some(RollbackReady(id, _, copied)) => Finish(s, r, WriteTx(s.t, id, 0, copied))
       case _ => s)
    case BeginDelete(r, id) =>
      if !Live(s.t, id) then s else Begin(s, r, Deleting(id))
    case CommitDelete(r) =>
      (match At(s, r)
       case Some(Deleting(id)) => Finish(s, r, Ok(DeleteTx(s.t, id)))
       case _ => s)
    case BeginPromote(r, project, source, target, keys) =>
      if !CanPromote(s.t, project, source, target) then s
      else Begin(s, r, Promoting(project, source, target, keys))
    case ReadSource(r, values) =>
      (match At(s, r)
       case Some(Promoting(project, source, target, keys)) =>
         if !Lists(m, s.t, project, source, values) then s
         else Put(s, r, PromoteSourced(project, source, target, keys, values))
       case _ => s)
    case ReadTarget(r, values, draws, ids) =>
      (match At(s, r)
       case Some(PromoteSourced(project, source, target, keys, sourceValues)) =>
         var pendings := ToApply(sourceValues, ByKey(values), keys);
         if !Lists(m, s.t, project, target, values) || |draws| != |pendings| || |ids| != |pendings| then s
         else Put(s, r, PromoteReady(project, source, target, SealAll(m, project, target, pendings, draws, ids)))
       case _ => s)
    case CommitPromote(r) =>
      (match At(s, r)
       case Some(PromoteReady(project, _, target, entries)) => Finish(s, r, PromoteTx(s.t, project, target, entries))
       case _ => s)
    case Abandon(r) => Drop(s, r)
  }

  /** Both environments belong to the project and the target ranks strictly higher. */
  predicate CanPromote(t: Tables, project: Uuid, source: Uuid, target: Uuid) {
    && source != target && source in t.environments && target in t.environments
    && t.environments[source].project == t.environments[target].project == project
    && t.environments[source].rank < t.environments[target].rank
  }

  ghost function Run(m: Key, s: System, actions: seq<Action>): System {
    if actions == [] then s
    else Apply(m, Run(m, s, actions[..|actions| - 1]), actions[|actions| - 1])
  }

  // ---- The simple view: an append-only list of values per secret -----------

  /** What a step does to the lists: Create starts one, Update appends its value,
      Rollback to k appends a copy of entry k, Promote appends its values; every
      other step, and every transaction that fails, leaves them alone. */
  ghost function Observe(m: Key, s: System, h: History, a: Action): History {
    match a
    case CommitCreate(r, id) =>
      (match At(s, r)
       case Some(CreateReady(project, e, key, value, sealed)) =>
         if CreateTx(s.t, id, project, e, key, sealed).Ok? then Push(h, id, value) else h
       case _ => h)
    case CommitUpdate(r) =>
      (match At(s, r)
       case Some(UpdateReady(id, value, expected, sealed)) =>
         if WriteTx(s.t, id, expected, sealed).Ok? then Push(h, id, value) else h
       case _ => h)
    case CommitRollback(r) =>
      (match At(s, r)
       case Some(RollbackReady(id, version, copied)) =>
         if WriteTx(s.t, id, 0, copied).Ok? && id in h && 1 <= version <= |h[id]|
         then Push(h, id, h[id][version - 1]) else h
       case _ => h)
    case CommitPromote(r) =>
      (match At(s, r)
       case Some(PromoteReady(project, _, target, entries)) =>
         if PromoteTx(s.t, project, target, entries).Ok? then PushAll(h, entries) else h
       case _ => h)
    case _ => h
  }

  ghost function ObserveAll(m: Key, s: System, h: History, actions: seq<Action>): History {
    if actions == [] then h
    else
      var front := actions[..|actions| - 1];
      Observe(m, Run(m, s, front), ObserveAll(m, s, h, front), actions[|actions| - 1])
  }

  // ---- What a waiting request may rely on -----------------------------------

  ghost predicate Consistent(m: Key, t: Tables, p: Stage) {
    match p
    case Creating(project, e, key, _) =>
      ValidKey(key) && e in t.environments && t.environments[e].project == project
    case CreateReady(project, e, key, value, sealed) =>
      && ValidKey(key) && e in t.environments && t.environments[e].project == project
      && Decrypt(m, sealed, SecretAAD(project, e, key)) == Ok(value)
    case UpdateReady(id, value, _, sealed) =>
      id in t.secrets && Decrypt(m, sealed, AadOf(t.secrets[id])) == Ok(value)
    case RollingBack(id, _) => id in t.secrets
    case RollbackReady(id, version, copied) =>
      version >= 0 && VersionKey(id, version) in t.versions && t.versions[VersionKey(id, version)] == copied
    case Deleting(_) => true
    case Promoting(project, source, target, _) => CanPromote(t, project, source, target)
    case PromoteSourced(project, source, target, _, values) =>
      CanPromote(t, project, source, target) && KeyedList(values)
    case PromoteReady(project, source, target, entries) =>
      && CanPromote(t, project, source, target)
      && AllAddressed(m, t, project, target, entries) && DistinctKeys(entries)
  }

  /** Nothing another request commits can spoil what this one has read. */
  lemma ConsistencyIsStable(m: Key, t: Tables, t': Tables, p: Stage)
    requires Consistent(m, t, p) && Grows(t, t')
    ensures Consistent(m, t', p)
  {
  }

  ghost predicate Inv(m: Key, s: System, h: History) {
    && Sound(s.t) && Refines(m, s.t, h)
    && forall r | r in s.pending :: Consistent(m, s.t, s.pending[r])
  }

  // ---- Every step keeps the invariants and refines the simple view ----------

  lemma AddEnvironmentKeeps(m: Key, t: Tables, h: History, e: Uuid, row: EnvironmentRow)
    requires Sound(t) && Refines(m, t, h) && e !in t.environments
    ensures var t' := t.(environments := t.environments[e := row]);
            Sound(t') && Refines(m, t', h) && Grows(t, t')
  {
    var t' := t.(environments := t.environments[e := row]);
    assert forall id | Live(t', id) :: Live(t, id);
    assert forall id | id in h :: RowRefines(m, t, id, h[id]) ==> RowRefines(m, t', id, h[id]) by {
      assert forall id, i: nat, v | id in t.secrets && Opens(m, t, id, i, v) :: Opens(m, t', id, i, v);
    }
  }

  lemma RollbackCopiesTheEntry(m: Key, t: Tables, h: History, id: SecretId, version: nat)
    requires Sound(t) && Refines(m, t, h) && VersionKey(id, version) in t.versions
    ensures id in t.secrets && id in h && 1 <= version <= |h[id]|
    ensures Decrypt(m, t.versions[VersionKey(id, version)], AadOf(t.secrets[id])) == Ok(h[id][version - 1])
  {
    GrowsReflexive(t);
    var k := VersionKey(id, version);
    assert k.secret in t.secrets;
    RevealVersionYieldsThatValue(m, t, t, h, id, version);
  }

  /** What a step must show of the tables and the lists. */
  ghost predicate Refined(m: Key, s: System, h: History, s': System, h': History) {
    Sound(s'.t) && Refines(m, s'.t, h') && Grows(s.t, s'.t) && Extends(h, h')
  }

  predicate Writes(a: Action) {
    a.AddEnvironment? || a.CommitCreate? || a.CommitUpdate? || a.CommitRollback? || a.CommitDelete? || a.CommitPromote?
  }

  lemma CreateRefines(m: Key, s: System, h: History, a: Action)
    requires Inv(m, s, h) && a.CommitCreate?
    ensures Refined(m, s, h, Apply(m, s, a), Observe(m, s, h, a))
  {
    GrowsReflexive(s.t);
    hide Sound, Refines, Grows, CreateTx;
    match At(s, a.r)
    case Some(CreateReady(project, e, key, value, sealed)) =>
      assert Consistent(m, s.t, s.pending[a.r]);
      if CreateTx(s.t, a.id, project, e, key, sealed).Ok? {
        CreateTxRefines(m, s.t, h, a.id, project, e, key, sealed, value);
      }
    case _ =>
  }

  lemma UpdateRefines(m: Key, s: System, h: History, a: Action)
    requires Inv(m, s, h) && a.CommitUpdate?
    ensures Refined(m, s, h, Apply(m, s, a), Observe(m, s, h, a))
  {
    GrowsReflexive(s.t);
    hide Sound, Refines, Grows, WriteTx;
    match At(s, a.r)
    case Some(UpdateReady(id, value, expected, sealed)) =>
      assert Consistent(m, s.t, s.pending[a.r]);
      if WriteTx(s.t, id, expected, sealed).Ok? {
        WriteTxRefines(m, s.t, h, id, expected, sealed, value);
      }
    case _ =>
  }

  lemma RollbackRefines(m: Key, s: System, h: History, a: Action)
    requires Inv(m, s, h) && a.CommitRollback?
    ensures Refined(m, s, h, Apply(m, s, a), Observe(m, s, h, a))
  {
    GrowsReflexive(s.t);
    hide Sound, Refines, Grows, WriteTx;
    match At(s, a.r)
    case Some(RollbackReady(id, version, copied)) =>
      assert Consistent(m, s.t, s.pending[a.r]);
      RollbackCopiesTheEntry(m, s.t, h, id, version);
      if WriteTx(s.t, id, 0, copied).Ok? {
        WriteTxRefines(m, s.t, h, id, 0, copied, h[id][version - 1]);
      }
    case _ =>
  }

  lemma PromoteRefines(m: Key, s: System, h: History, a: Action)
    requires Inv(m, s, h) && a.CommitPromote?
    ensures Refined(m, s, h, Apply(m, s, a), Observe(m, s, h, a))
  {
    GrowsReflexive(s.t);
    hide Sound, Refines, Grows, PromoteTx, AllAddressed, DistinctKeys;
    match At(s, a.r)
    case Some(PromoteReady(project, _, target, entries)) =>
      assert Consistent(m, s.t, s.pending[a.r]);
      if PromoteTx(s.t, project, target, entries).Ok? {
        PromoteTxRefines(m, s.t, h, project, target, entries);
      }
    case _ =>
  }

  lemma DeleteOrEnvironmentRefines(m: Key, s: System, h: History, a: Action)
    requires Inv(m, s, h) && (a.CommitDelete? || a.AddEnvironment?)
    ensures Refined(m, s, h, Apply(m, s, a), Observe(m, s, h, a))
  {
    GrowsReflexive(s.t);
    hide Sound, Refines, Grows, DeleteTx;
    match a
    case AddEnvironment(e, project, rank) =>
      if e !in s.t.environments {
        AddEnvironmentKeeps(m, s.t, h, e, EnvironmentRow(project, rank));
      }
    case CommitDelete(r) =>
      if r in s.pending && s.pending[r].Deleting? {
        DeleteTxIsSound(s.t, s.pending[r].id);
        DeleteTxRefines(m, s.t, h, s.pending[r].id);
      }
  }

  lemma OthersLeaveTheTables(m: Key, s: System, h: History, a: Action)
    requires !Writes(a)
    ensures Apply(m, s, a).t == s.t && Observe(m, s, h, a) == h
  {
  }

  /** The invariants of the tables hold again, the tables only grow, and the lists
      change exactly as Observe says. */
  lemma CommitRefines(m: Key, s: System, h: History, a: Action)
    requires Inv(m, s, h)
    ensures Refined(m, s, h, Apply(m, s, a), Observe(m, s, h, a))
  {
    if !Writes(a) {
      OthersLeaveTheTables(m, s, h, a);
      GrowsReflexive(s.t);
    }
    hide Inv, Apply, Observe, Refined;
    match a
    case CommitCreate(_, _) => CreateRefines(m, s, h, a);
    case CommitUpdate(_) => UpdateRefines(m, s, h, a);
    case CommitRollback(_) => RollbackRefines(m, s, h, a);
    case CommitPromote(_) => PromoteRefines(m, s, h, a);
    case CommitDelete(_) => DeleteOrEnvironmentRefines(m, s, h, a);
    case AddEnvironment(_, _, _) => DeleteOrEnvironmentRefines(m, s, h, a);
    case _ =>
  }

  /** Whatever a step leaves waiting has read consistent data. */
  lemma StepKeepsConsistency(m: Key, s: System, h: History, a: Action, q: RequestId)
    requires Inv(m, s, h) && q in Apply(m, s, a).pending
    ensures Consistent(m, Apply(m, s, a).t, Apply(m, s, a).pending[q])
  {
    CommitRefines(m, s, h, a);
    if q in s.pending && Apply(m, s, a).pending[q] == s.pending[q] {
      ConsistencyIsStable(m, s.t, Apply(m, s, a).t, s.pending[q]);
    } else {
      NewlyReadIsConsistent(m, s, h, a, q);
    }
  }

  lemma NewlyReadIsConsistent(m: Key, s: System, h: History, a: Action, q: RequestId)
    requires Inv(m, s, h) && q in Apply(m, s, a).pending
    requires !(q in s.pending && Apply(m, s, a).pending[q] == s.pending[q])
    ensures Consistent(m, Apply(m, s, a).t, Apply(m, s, a).pending[q])
  {
    hide Sound, Refines, AllAddressed, DistinctKeys, KeyedList, Lists;
    match a
    case ReadSource(r, values) =>
      var p := s.pending[r];
      ListIsKeyed(m, s.t, p.project, p.source, values);
    case ReadTarget(r, values, draws, ids) =>
      var p := s.pending[r];
      PlanIsAddressed(m, s.t, p.project, p.target, p.values, values, p.keys, draws, ids);
    case _ =>
  }

  /** One step of any request: the invariants hold again, the tables only grow, and
      the lists change exactly as Observe says, each one extending what it was. */
  lemma StepRefines(m: Key, s: System, h: History, a: Action)
    requires Inv(m, s, h)
    ensures Inv(m, Apply(m, s, a), Observe(m, s, h, a))
    ensures Grows(s.t, Apply(m, s, a).t) && Extends(h, Observe(m, s, h, a))
  {
    CommitRefines(m, s, h, a);
    forall q | q in Apply(m, s, a).pending ensures Consistent(m, Apply(m, s, a).t, Apply(m, s, a).pending[q]) {
      StepKeepsConsistency(m, s, h, a, q);
    }
  }

  lemma ExtendsTransitive(h: History, h': History, h'': History)
    requires Extends(h, h') && Extends(h', h'')
    ensures Extends(h, h'')
  {
    forall id | id in h ensures h[id] <= h''[id] {
      assert h[id] <= h'[id] <= h''[id];
    }
  }

  /** Any interleaving of any requests: the tables refine the append-only lists. */
  lemma {:induction false} RunRefines(m: Key, s: System, h: History, actions: seq<Action>)
    requires Inv(m, s, h)
    ensures Inv(m, Run(m, s, actions), ObserveAll(m, s, h, actions))
    ensures Grows(s.t, Run(m, s, actions).t) && Extends(h, ObserveAll(m, s, h, actions))
  {
    if actions == [] {
      GrowsReflexive(s.t);
      assert Extends(h, h);
    } else {
      var front, a := actions[..|actions| - 1], actions[|actions| - 1];
      hide Inv, Grows, Apply, Observe, Extends;
      RunRefines(m, s, h, front);
      var s1, h1 := Run(m, s, front), ObserveAll(m, s, h, front);
      StepRefines(m, s1, h1, a);
      GrowsTransitive(s.t, s1.t, Apply(m, s1, a).t);
      ExtendsTransitive(h, h1, Observe(m, s1, h1, a));
    }
  }
}
