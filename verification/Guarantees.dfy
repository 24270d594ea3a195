/** What users are promised, for every interleaving of requests. */
module Guarantees {
  import opened Outcomes
  import opened Envelope
  import opened Schema
  import opened Transactions
  import opened Listing
  import opened PromotionEffect
  import opened PromotionVersions
  import opened ParallelResolve
  import opened Requests

  const EMPTY: System := System(Tables(map[], map[], map[]), map[])

  /** Starting from empty tables, after any steps of any requests: every secret has
      exactly the versions 1..current; every stored version, copied or re-sealed
      included, opens under its own project, environment and key, to the entry of the
      list that it is, and under no other identity. */
  lemma EveryVersionOpensOnlyAsItself(m: Key, actions: seq<Action>, k: VersionKey, p: Uuid, e: Uuid, key: string)
    ensures var t, h := Run(m, EMPTY, actions).t, ObserveAll(m, EMPTY, map[], actions);
            && h.Keys == t.secrets.Keys
            && (k in t.versions <==> k.secret in t.secrets && 1 <= k.version <= t.secrets[k.secret].current)
            && (k in t.versions ==>
                  && k.version <= |h[k.secret]| == t.secrets[k.secret].current
                  && Decrypt(m, t.versions[k], SecretAAD(p, e, key)) ==
                       if IdentityOf(t.secrets[k.secret]) == (p, e, key)
                       then Ok(h[k.secret][k.version - 1]) else Err(DecryptFailed))
  {
    RunRefines(m, EMPTY, map[], actions);
    var t, h := Run(m, EMPTY, actions).t, ObserveAll(m, EMPTY, map[], actions);
    if k in t.versions {
      BoundToItsIdentity(m, t, h, k, p, e, key);
      assert RowRefines(m, t, k.secret, h[k.secret]);
    }
  }

  /** In every reachable state a key names at most one live secret of an environment,
      and a secret's project is its environment's. */
  lemma OneLiveSecretPerKey(m: Key, actions: seq<Action>, a: SecretId, b: SecretId)
    requires var t := Run(m, EMPTY, actions).t;
             && Live(t, a) && Live(t, b)
             && t.secrets[a].environment == t.secrets[b].environment && t.secrets[a].key == t.secrets[b].key
    ensures a == b
    ensures var t := Run(m, EMPTY, actions).t;
            && t.secrets[a].environment in t.environments
            && t.environments[t.secrets[a].environment].project == t.secrets[a].project
  {
    RunRefines(m, EMPTY, map[], actions);
  }

  /** A run in two parts. */
  lemma {:induction false} RunSplits(m: Key, s: System, a: seq<Action>, b: seq<Action>)
    ensures Run(m, s, a + b) == Run(m, Run(m, s, a), b)
  {
    if b == [] {
      assert a + b == a;
    } else {
      var n := |b| - 1;
      assert (a + b)[..|a + b| - 1] == a + b[..n];
      RunSplits(m, s, a, b[..n]);
    }
  }

  /** A rollback to version k that commits appends entry k of the list as it is when
      it commits, and the row it inserts is the old row verbatim. */
  lemma RollbackAppendsACopy(m: Key, s: System, h: History, r: RequestId)
    requires Inv(m, s, h) && r in s.pending && s.pending[r].RollbackReady? && Live(s.t, s.pending[r].id)
    ensures var id, k := s.pending[r].id, s.pending[r].version;
            && id in h && 1 <= k <= |h[id]|
            && Observe(m, s, h, CommitRollback(r)) == h[id := h[id] + [h[id][k - 1]]]
            && Apply(m, s, CommitRollback(r)).t.versions ==
                 s.t.versions[VersionKey(id, |h[id]| + 1) := s.t.versions[VersionKey(id, k)]]
  {
    var p := s.pending[r];
    assert Consistent(m, s.t, p);
    RollbackCopiesTheEntry(m, s.t, h, p.id, p.version);
    assert RowRefines(m, s.t, p.id, h[p.id]);
  }

  // ---- Optimistic concurrency ------------------------------------------------

  /** The step commits an Update of this secret that expected this version. */
  ghost predicate CommitsUpdate(s: System, a: Action, id: SecretId, expected: int) {
    && a.CommitUpdate? && a.r in s.pending && s.pending[a.r].UpdateReady?
    && s.pending[a.r].id == id && s.pending[a.r].expected == expected
    && WriteTx(s.t, id, expected, s.pending[a.r].sealed).Ok?
  }

  /** The update that commits lands directly after the version it expected. */
  lemma UpdateLandsAfterExpected(m: Key, s: System, h: History, a: Action, id: SecretId, expected: int)
    requires Inv(m, s, h) && expected > 0 && CommitsUpdate(s, a, id, expected)
    ensures id in h && |h[id]| == expected && id in Apply(m, s, a).t.secrets
    ensures Observe(m, s, h, a) == h[id := h[id] + [s.pending[a.r].value]]
    ensures Apply(m, s, a).t.secrets[id].current == expected + 1
    ensures Apply(m, s, a).t.versions == s.t.versions[VersionKey(id, expected + 1) := s.pending[a.r].sealed]
  {
    assert RowRefines(m, s.t, id, h[id]);
  }

  /** An update that does not commit leaves both tables alone. */
  lemma LosingUpdateChangesNothing(m: Key, s: System, a: Action)
    requires a.CommitUpdate? && a.r in s.pending && s.pending[a.r].UpdateReady?
    requires !CommitsUpdate(s, a, s.pending[a.r].id, s.pending[a.r].expected)
    ensures Apply(m, s, a).t == s.t
  {
  }

  /** Later tables have grown from earlier ones. */
  lemma StatesGrow(m: Key, s: System, h: History, actions: seq<Action>, i: nat, j: nat)
    requires Inv(m, s, h) && i <= j <= |actions|
    ensures Grows(Run(m, s, actions[..i]).t, Run(m, s, actions[..j]).t)
  {
    assert actions[..j] == actions[..i] + actions[i..j];
    hide Inv, Grows;
    RunRefines(m, s, h, actions[..i]);
    RunSplits(m, s, actions[..i], actions[i..j]);
    RunRefines(m, Run(m, s, actions[..i]), ObserveAll(m, s, h, actions[..i]), actions[i..j]);
  }

  /** A check that an environment belongs to a project stays good: environments are never
      moved. Promotion makes it just before it reads, a token when it is minted. */
  ghost predicate CheckedBefore(m: Key, actions: seq<Action>, i: nat, project: Uuid, environment: Uuid)
    requires i <= |actions|
  {
    var t := Run(m, EMPTY, actions[..i]).t;
    environment in t.environments && t.environments[environment].project == project
  }

  lemma StillOfTheProject(m: Key, actions: seq<Action>, i: nat, project: Uuid, environment: Uuid)
    requires i <= |actions| && CheckedBefore(m, actions, i, project, environment)
    ensures var t := Run(m, EMPTY, actions).t;
            environment in t.environments && t.environments[environment].project == project
  {
    StatesGrow(m, EMPTY, map[], actions, i, |actions|);
    assert actions[..|actions|] == actions;
    hide Run;
  }

  /** In every reachable state every bulk read, for a promotion or for a CI pull whose
      token was minted at any earlier point, opens every row, whatever schedule its workers
      follow; only a caller that gives up gets an error. */
  lemma BulkReadsNeverFail(m: Key, actions: seq<Action>, i: nat, j: Job, g: Group, schedule: seq<Step>)
    requires i <= |actions| && CheckedBefore(m, actions, i, j.project, j.environment)
    requires j.master == m && Selects(Run(m, EMPTY, actions).t, j.environment, j.rows)
    requires Play(j, schedule) == Some(g) && Done(j, g)
    ensures g.error.Some? ==> g.cancelled
    ensures g.error.None? ==> |g.slots| == |j.rows|
    ensures g.error.None? ==>
      forall k | 0 <= k < |j.rows| :: g.slots[k].Some? &&
        ResolvesTo(m, Run(m, EMPTY, actions).t, j.project, j.environment, g.slots[k].value)
  {
    RunRefines(m, EMPTY, map[], actions);
    StillOfTheProject(m, actions, i, j.project, j.environment);
    var t, h := Run(m, EMPTY, actions).t, ObserveAll(m, EMPTY, map[], actions);
    assert Sound(t) && Refines(m, t, h);
    hide Run, ObserveAll, Sound, Refines, Selects, Play, Done, AllOpen, ResolvesTo, CheckedBefore;
    EveryRowOpens(j, t, h);
    ScheduleDoesNotMatter(j, g, schedule);
  }

  lemma OvertakenUpdateFails(t: Tables, s: System, a: Action, id: SecretId, expected: int)
    requires id in t.secrets && t.secrets[id].current > expected > 0 && Grows(t, s.t)
    ensures !CommitsUpdate(s, a, id, expected)
  {
    assert RowGrows(t.secrets[id], s.t.secrets[id]);
  }

  lemma RunOneMore(m: Key, s: System, actions: seq<Action>, i: nat)
    requires i < |actions|
    ensures Run(m, s, actions[..i + 1]) == Apply(m, Run(m, s, actions[..i]), actions[i])
  {
    assert actions[..i + 1][..i] == actions[..i];
  }

  /** However requests interleave, at most one update that expected version v of a
      secret commits: once one has, no later step commits another. */
  lemma AtMostOneUpdateCommits(m: Key, s: System, h: History, actions: seq<Action>, i: nat, j: nat, id: SecretId,
                               expected: int)
    requires Inv(m, s, h) && expected > 0 && i < j < |actions|
    requires CommitsUpdate(Run(m, s, actions[..i]), actions[i], id, expected)
    ensures !CommitsUpdate(Run(m, s, actions[..j]), actions[j], id, expected)
  {
    hide Inv, CommitsUpdate, Run, Apply, Observe, ObserveAll, Grows;
    var before, later := Run(m, s, actions[..i]), Run(m, s, actions[..j]);
    var h1 := ObserveAll(m, s, h, actions[..i]);
    RunRefines(m, s, h, actions[..i]);
    UpdateLandsAfterExpected(m, before, h1, actions[i], id, expected);
    RunOneMore(m, s, actions, i);
    StatesGrow(m, s, h, actions, i + 1, j);
    OvertakenUpdateFails(Run(m, s, actions[..i + 1]).t, later, actions[j], id, expected);
  }

  // ---- Promotion is all or nothing -------------------------------------------

  lemma CommitPromoteRuns(m: Key, s: System, h: History, r: RequestId)
    requires r in s.pending && s.pending[r].PromoteReady?
    ensures
      var p, outcome := s.pending[r], PromoteTx(s.t, s.pending[r].project, s.pending[r].target, s.pending[r].entries);
      && Apply(m, s, CommitPromote(r)).t == Committed(s.t, outcome)
      && Observe(m, s, h, CommitPromote(r)) == if outcome.Ok? then PushAll(h, p.entries) else h
  {
  }

  /** Whatever committed between a promotion's reads and its transaction: if every
      target secret is still live and every new key still free, each entry adds exactly
      one version, which is then current under its key, and no other list changes;
      otherwise no row of any table changes. */
  lemma PromotionIsAllOrNothing(m: Key, s: System, h: History, r: RequestId)
    requires Inv(m, s, h) && r in s.pending && s.pending[r].PromoteReady?
    ensures
      var p, s', h' := s.pending[r], Apply(m, s, CommitPromote(r)), Observe(m, s, h, CommitPromote(r));
      && Refines(m, s'.t, h')
      && if AllReady(s.t, p.target, p.entries) && DistinctDraws(p.entries) then
           && OneVersionEach(h, h', p.entries)
           && (forall i | 0 <= i < |p.entries| ::
                 Current(s'.t, h', p.target, p.entries[i].key) == Some(p.entries[i].value))
           && |s'.t.versions| == |s.t.versions| + |p.entries|
         else s'.t == s.t && h' == h
  {
    var p, a := s.pending[r], CommitPromote(r);
    assert Consistent(m, s.t, p);
    CommitsExactlyWhenReady(m, s.t, p.project, p.target, p.entries);
    CommitPromoteRuns(m, s, h, r);
    StepRefines(m, s, h, a);
    var t', h' := Apply(m, s, a).t, Observe(m, s, h, a);
    assert Refines(m, t', h') && h'.Keys == t'.secrets.Keys && h.Keys == s.t.secrets.Keys;
    hide AllAddressed, Sound, AllReady, DistinctDraws, Apply, Observe, Grows, PromoteTx, Current, Refines, OneVersionEach;
    if PromoteTx(s.t, p.project, p.target, p.entries).Ok? {
      CommitAddsOneVersionEach(m, s.t, h, p.project, p.target, p.entries);
      AddsARowPerEntry(m, s.t, h, p.project, p.target, p.entries);
      forall i | 0 <= i < |p.entries| ensures Current(t', h', p.target, p.entries[i].key) == Some(p.entries[i].value) {
        PromoteSetsExactlyItsKeys(m, s.t, h, p.project, p.target, p.entries, p.target, p.entries[i].key);
        WrittenIsTheEntry(p.entries, i);
      }
    }
  }
}
