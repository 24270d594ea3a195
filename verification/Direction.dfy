/** Promotions move values upwards only. In a run made of promotions alone, an
    environment that no other of its project ranks below never changes, and every
    value found anywhere was there at the start or in a lower environment, under the
    same key. */
module Direction {
  import opened Envelope
  import opened Schema
  import opened Transactions
  import opened Listing
  import opened PromotionPlan
  import opened PromotionEffect
  import opened PromotionVersions
  import opened Requests

  predicate IsPromotion(a: Action) {
    a.BeginPromote? || a.ReadSource? || a.ReadTarget? || a.CommitPromote? || a.Abandon?
  }

  /** The value was stored under this key in this environment. */
  ghost predicate Origin(t: Tables, h: History, environment: Uuid, key: string, value: string) {
    exists id | id in h && id in t.secrets ::
      t.secrets[id].environment == environment && t.secrets[id].key == key && value in h[id]
  }

  /** ... in some environment of the same project that ranks strictly lower. */
  ghost predicate Below(t: Tables, h: History, environment: Uuid, key: string, value: string) {
    exists e | e in t.environments :: RanksBelow(t, e, environment) && Origin(t, h, e, key, value)
  }

  predicate RanksBelow(t: Tables, e: Uuid, environment: Uuid) {
    && e in t.environments && environment in t.environments
    && t.environments[e].project == t.environments[environment].project
    && t.environments[e].rank < t.environments[environment].rank
  }

  ghost predicate Derived(t: Tables, h: History, environment: Uuid, key: string, value: string) {
    Origin(t, h, environment, key, value) || Below(t, h, environment, key, value)
  }

  predicate Lowest(t: Tables, environment: Uuid) {
    forall e | e in t.environments :: !RanksBelow(t, e, environment)
  }

  /** The state of a run of promotions that began from tables t0 with lists h0. */
  ghost predicate Upwards(t0: Tables, h0: History, s: System, h: History) {
    && s.t.environments == t0.environments && h.Keys == s.t.secrets.Keys
    && (forall id, v | id in h && v in h[id] ::
          Derived(t0, h0, s.t.secrets[id].environment, s.t.secrets[id].key, v))
    && (forall r | r in s.pending :: CarriesUpwards(t0, h0, s.pending[r]))
    && (forall e | Lowest(t0, e) :: Untouched(t0, h0, s.t, h, e))
  }

  ghost predicate CarriesUpwards(t0: Tables, h0: History, p: Stage) {
    match p
    case Promoting(_, source, target, _) => RanksBelow(t0, source, target)
    case PromoteSourced(_, source, target, _, values) =>
      && RanksBelow(t0, source, target)
      && forall i | 0 <= i < |values| :: Derived(t0, h0, source, values[i].key, values[i].value)
    case PromoteReady(_, source, target, entries) =>
      && RanksBelow(t0, source, target)
      && forall i | 0 <= i < |entries| :: Below(t0, h0, target, entries[i].key, entries[i].value)
    case _ => false
  }

  /** The environment's secrets, their rows and their lists are what they were. */
  ghost predicate Untouched(t0: Tables, h0: History, t: Tables, h: History, e: Uuid) {
    forall id :: SameRow(t0, h0, t, h, e, id)
  }

  ghost predicate SameRow(t0: Tables, h0: History, t: Tables, h: History, e: Uuid, id: SecretId) {
    && (InEnvironment(t0, e, id) <==> InEnvironment(t, e, id))
    && (InEnvironment(t0, e, id) ==>
          t.secrets[id] == t0.secrets[id] && id in h0 && id in h && h[id] == h0[id])
  }

  predicate InEnvironment(t: Tables, e: Uuid, id: SecretId) {
    id in t.secrets && t.secrets[id].environment == e
  }

  lemma DerivedBelow(t: Tables, h: History, source: Uuid, target: Uuid, key: string, value: string)
    requires Derived(t, h, source, key, value) && RanksBelow(t, source, target)
    ensures Below(t, h, target, key, value)
  {
    if !Origin(t, h, source, key, value) {
      var e :| e in t.environments && RanksBelow(t, e, source) && Origin(t, h, e, key, value);
      assert RanksBelow(t, e, target);
    }
  }

  // ---- What the transaction of a promotion touches ---------------------------

  /** A secret no entry goes to keeps its row and its list. */
  lemma {:induction false} OthersKeepTheirRows(t: Tables, h: History, project: Uuid, environment: Uuid,
                                               entries: seq<Entry>, id: SecretId)
    requires PromoteTx(t, project, environment, entries).Ok?
    requires forall i | 0 <= i < |entries| :: Destination(entries[i]) != id
    ensures var t', h' := PromoteTx(t, project, environment, entries).value, PushAll(h, entries);
            && (id in t'.secrets <==> id in t.secrets) && (id in t.secrets ==> t'.secrets[id] == t.secrets[id])
            && (id in h' <==> id in h) && (id in h ==> h'[id] == h[id])
  {
    if entries != [] {
      OthersKeepTheirRows(t, h, project, environment, entries[..|entries| - 1], id);
    }
  }

  /** Every value of a list was there before or was brought by an entry. */
  lemma {:induction false} PushedValues(h: History, entries: seq<Entry>, id: SecretId, v: string)
    requires id in PushAll(h, entries) && v in PushAll(h, entries)[id]
    ensures (id in h && v in h[id])
         || exists i :: 0 <= i < |entries| && Destination(entries[i]) == id && entries[i].value == v
  {
    if entries != [] {
      var n := |entries| - 1;
      var h1 := PushAll(h, entries[..n]);
      if id in h1 && v in h1[id] {
        PushedValues(h, entries[..n], id, v);
        if !(id in h && v in h[id]) {
          var i :| 0 <= i < n && Destination(entries[..n][i]) == id && entries[..n][i].value == v;
          assert Destination(entries[i]) == id;
        }
      } else {
        assert Destination(entries[n]) == id && entries[n].value == v;
      }
    }
  }

  // ---- Steps -----------------------------------------------------------------

  lemma CommitKeepsOrigins(m: Key, t0: Tables, h0: History, s: System, h: History, r: RequestId, id: SecretId,
                           v: string)
    requires Inv(m, s, h) && Upwards(t0, h0, s, h) && r in s.pending && s.pending[r].PromoteReady?
    requires var p := s.pending[r]; PromoteTx(s.t, p.project, p.target, p.entries).Ok?
    ensures var p := s.pending[r];
            var t', h' := PromoteTx(s.t, p.project, p.target, p.entries).value, PushAll(h, p.entries);
            id in h' && v in h'[id] ==> id in t'.secrets && Derived(t0, h0, t'.secrets[id].environment, t'.secrets[id].key, v)
  {
    var p := s.pending[r];
    assert CarriesUpwards(t0, h0, p) && Consistent(m, s.t, p);
    var h' := PushAll(h, p.entries);
    if id in h' && v in h'[id] {
      hide Inv, AllAddressed, Derived;
      PushedValues(h, p.entries, id, v);
      RowsSurvive(s.t, p.project, p.target, p.entries, id);
      if !(id in h && v in h[id]) {
        var i :| 0 <= i < |p.entries| && Destination(p.entries[i]) == id && p.entries[i].value == v;
        PromoteWritesItsEnvironment(m, s.t, p.project, p.target, p.entries, i);
        BelowIsDerived(t0, h0, p.target, p.entries[i].key, v);
      }
    }
  }

  lemma BelowIsDerived(t: Tables, h: History, environment: Uuid, key: string, value: string)
    requires Below(t, h, environment, key, value)
    ensures Derived(t, h, environment, key, value)
  {
  }

  lemma CommitKeepsLowest(m: Key, t0: Tables, h0: History, s: System, h: History, r: RequestId, e: Uuid, id: SecretId)
    requires Inv(m, s, h) && Upwards(t0, h0, s, h) && r in s.pending && s.pending[r].PromoteReady?
    requires var p := s.pending[r]; PromoteTx(s.t, p.project, p.target, p.entries).Ok?
    requires Lowest(t0, e)
    ensures var p := s.pending[r];
            SameRow(t0, h0, PromoteTx(s.t, p.project, p.target, p.entries).value, PushAll(h, p.entries), e, id)
  {
    var p := s.pending[r];
    assert CarriesUpwards(t0, h0, p) && Consistent(m, s.t, p) && SameRow(t0, h0, s.t, h, e, id);
    assert p.target != e;
    hide Inv, AllAddressed, Upwards, CarriesUpwards, Consistent;
    if i :| 0 <= i < |p.entries| && Destination(p.entries[i]) == id {
      PromoteWritesItsEnvironment(m, s.t, p.project, p.target, p.entries, i);
      RowsSurvive(s.t, p.project, p.target, p.entries, id);
    } else {
      OthersKeepTheirRows(s.t, h, p.project, p.target, p.entries, id);
    }
  }

  lemma SourceReadIsDerived(m: Key, t0: Tables, h0: History, s: System, h: History, project: Uuid, source: Uuid,
                            x: Resolved)
    requires Inv(m, s, h) && Upwards(t0, h0, s, h) && ResolvesTo(m, s.t, project, source, x)
    ensures Derived(t0, h0, source, x.key, x.value)
  {
    ResolvedIsLast(m, s.t, h, project, source, x);
    assert x.value in h[x.id];
  }

  lemma EntriesAreBelow(m: Key, t0: Tables, h0: History, project: Uuid, source: Uuid, target: Uuid,
                        values: seq<Resolved>,
                        existing: map<string, Resolved>, keys: seq<string>, draws: seq<Draw>, ids: seq<SecretId>)
    requires RanksBelow(t0, source, target)
    requires forall i | 0 <= i < |values| :: Derived(t0, h0, source, values[i].key, values[i].value)
    requires |draws| == |ids| == |ToApply(values, existing, keys)|
    ensures var entries := SealAll(m, project, target, ToApply(values, existing, keys), draws, ids);
            forall i | 0 <= i < |entries| :: Below(t0, h0, target, entries[i].key, entries[i].value)
  {
    var pendings := ToApply(values, existing, keys);
    forall i | 0 <= i < |pendings| ensures Below(t0, h0, target, pendings[i].source.key, pendings[i].source.value) {
      AppliedExactly(values, existing, keys, pendings[i]);
      DerivedBelow(t0, h0, source, target, pendings[i].source.key, pendings[i].source.value);
    }
  }

  lemma ReadsCarryUpwards(m: Key, t0: Tables, h0: History, s: System, h: History, a: Action, q: RequestId)
    requires Inv(m, s, h) && Upwards(t0, h0, s, h) && IsPromotion(a) && q in Apply(m, s, a).pending
    ensures CarriesUpwards(t0, h0, Apply(m, s, a).pending[q])
  {
    hide Inv, Derived, Below, Untouched, SealAll, PromoteTx, Sound;
    if q in s.pending {
      assert CarriesUpwards(t0, h0, s.pending[q]);
    }
    assert s.t.environments == t0.environments;
    match a
    case ReadSource(r, values) =>
      if r == q && s.pending[r].Promoting? && Lists(m, s.t, s.pending[r].project, s.pending[r].source, values) {
        var p := s.pending[r];
        forall i | 0 <= i < |values| ensures Derived(t0, h0, p.source, values[i].key, values[i].value) {
          SourceReadIsDerived(m, t0, h0, s, h, p.project, p.source, values[i]);
        }
      }
    case ReadTarget(r, values, draws, ids) =>
      if r == q && s.pending[r].PromoteSourced? {
        var p := s.pending[r];
        if |draws| == |ids| == |ToApply(p.values, ByKey(values), p.keys)| {
          EntriesAreBelow(m, t0, h0, p.project, p.source, p.target, p.values, ByKey(values), p.keys, draws, ids);
        }
      }
    case _ =>
  }

  lemma StepGoesUpwards(m: Key, t0: Tables, h0: History, s: System, h: History, a: Action)
    requires Inv(m, s, h) && Upwards(t0, h0, s, h) && IsPromotion(a)
    ensures Upwards(t0, h0, Apply(m, s, a), Observe(m, s, h, a))
  {
    hide Apply, Observe, Inv, CarriesUpwards, Derived, Untouched;
    var s', h' := Apply(m, s, a), Observe(m, s, h, a);
    SameKeysAfter(m, s, h, a);
    forall q | q in s'.pending ensures CarriesUpwards(t0, h0, s'.pending[q]) {
      ReadsCarryUpwards(m, t0, h0, s, h, a, q);
    }
    if a.CommitPromote? && a.r in s.pending && s.pending[a.r].PromoteReady? {
      CommitGoesUpwards(m, t0, h0, s, h, a.r);
    } else {
      OthersChangeNothing(m, s, h, a);
    }
  }

  lemma SameKeysAfter(m: Key, s: System, h: History, a: Action)
    requires Inv(m, s, h)
    ensures Observe(m, s, h, a).Keys == Apply(m, s, a).t.secrets.Keys
  {
    hide Apply, Observe;
    StepRefines(m, s, h, a);
  }

  lemma OthersChangeNothing(m: Key, s: System, h: History, a: Action)
    requires IsPromotion(a) && !(a.CommitPromote? && a.r in s.pending && s.pending[a.r].PromoteReady?)
    ensures Apply(m, s, a).t == s.t && Observe(m, s, h, a) == h
  {
  }

  lemma CommitGoesUpwards(m: Key, t0: Tables, h0: History, s: System, h: History, r: RequestId)
    requires Inv(m, s, h) && Upwards(t0, h0, s, h) && r in s.pending && s.pending[r].PromoteReady?
    ensures var s', h' := Apply(m, s, CommitPromote(r)), Observe(m, s, h, CommitPromote(r));
            && s'.t.environments == t0.environments
            && (forall id, v | id in h' && v in h'[id] ::
                  id in s'.t.secrets && Derived(t0, h0, s'.t.secrets[id].environment, s'.t.secrets[id].key, v))
            && (forall e | Lowest(t0, e) :: Untouched(t0, h0, s'.t, h', e))
  {
    var p := s.pending[r];
    var s', h' := Apply(m, s, CommitPromote(r)), Observe(m, s, h, CommitPromote(r));
    if PromoteTx(s.t, p.project, p.target, p.entries).Ok? {
      assert s'.t == PromoteTx(s.t, p.project, p.target, p.entries).value && h' == PushAll(h, p.entries);
      RowsSurvive(s.t, p.project, p.target, p.entries, 0);
      hide Apply, Observe, Inv, Derived, SameRow;
      forall id, v | id in h' && v in h'[id]
        ensures id in s'.t.secrets && Derived(t0, h0, s'.t.secrets[id].environment, s'.t.secrets[id].key, v)
      {
        CommitKeepsOrigins(m, t0, h0, s, h, r, id, v);
      }
      forall e, id | Lowest(t0, e) ensures SameRow(t0, h0, s'.t, h', e, id) {
        CommitKeepsLowest(m, t0, h0, s, h, r, e, id);
      }
    }
  }

  /** Any interleaving of promotions, from tables with no request in flight: a lowest
      environment is untouched, and every value anywhere was there at the start or,
      under the same key, in a strictly lower environment of the same project. */
  lemma {:induction false} PromotionsOnlyMoveUpwards(m: Key, s: System, h: History, actions: seq<Action>)
    requires Inv(m, s, h) && s.pending == map[]
    requires forall a | a in actions :: IsPromotion(a)
    ensures Upwards(s.t, h, Run(m, s, actions), ObserveAll(m, s, h, actions))
  {
    if actions == [] {
      assert Upwards(s.t, h, s, h);
    } else {
      var front := actions[..|actions| - 1];
      assert actions == front + [actions[|actions| - 1]];
      PromotionsOnlyMoveUpwards(m, s, h, front);
      RunRefines(m, s, h, front);
      StepGoesUpwards(m, s.t, h, Run(m, s, front), ObserveAll(m, s, h, front), actions[|actions| - 1]);
    }
  }
}
