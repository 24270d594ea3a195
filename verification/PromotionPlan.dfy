/** Planning a promotion: compare the source list with the target list, and seal
    what differs for the target environment. */
module PromotionPlan {
  import opened Outcomes
  import opened Envelope
  import opened Ordering
  import opened Schema
  import opened Transactions
  import opened Listing

  datatype Kind = Added | Changed | Unchanged

  datatype Change = Change(key: string, kind: Kind, masked: bool, sourceValue: Option<string>, targetValue: Option<string>)

  /** A source value that differs, with the target secret it replaces, if any. */
  datatype Pending = Pending(source: Resolved, target: Option<Resolved>)

  predicate Wanted(keys: seq<string>, key: string) {
    keys == [] || key in keys
  }

  function Lookup(target: map<string, Resolved>, key: string): Option<Resolved> {
    if key in target then Some(target[key]) else None
  }

  function Compare(x: Resolved, target: map<string, Resolved>): Kind {
    if x.key !in target then Added
    else if target[x.key].value == x.value then Unchanged
    else Changed
  }

  function ChangeOf(x: Resolved, target: map<string, Resolved>, includeValues: bool): Change {
    Change(x.key, Compare(x, target), !includeValues,
           if includeValues then Some(x.value) else None,
           if includeValues && x.key in target then Some(target[x.key].value) else None)
  }

  function Changes(source: seq<Resolved>, target: map<string, Resolved>, keys: seq<string>,
                   includeValues: bool): seq<Change> {
    if source == [] then []
    else
      var x := source[|source| - 1];
      Changes(source[..|source| - 1], target, keys, includeValues)
        + if Wanted(keys, x.key) then [ChangeOf(x, target, includeValues)] else []
  }

  function ToApply(source: seq<Resolved>, target: map<string, Resolved>, keys: seq<string>): seq<Pending> {
    if source == [] then []
    else
      var x := source[|source| - 1];
      ToApply(source[..|source| - 1], target, keys)
        + if Wanted(keys, x.key) && Compare(x, target) != Unchanged then [Pending(x, Lookup(target, x.key))] else []
  }

  function SealOne(master: Key, project: Uuid, environment: Uuid, p: Pending, draw: Draw, id: SecretId): Entry {
    Entry(p.source.key, p.source.value,
          if p.target.Some? then Some(p.target.value.id) else None, id,
          Encrypt(master, p.source.value, SecretAAD(project, environment, p.source.key), draw))
  }

  function SealAll(master: Key, project: Uuid, environment: Uuid, pendings: seq<Pending>, draws: seq<Draw>,
                   ids: seq<SecretId>): seq<Entry>
    requires |draws| == |ids| == |pendings|
  {
    seq(|pendings|, i requires 0 <= i < |pendings| => SealOne(master, project, environment, pendings[i], draws[i], ids[i]))
  }

  /** The keys a plan writes. */
  function ChangedKeys(changes: seq<Change>): seq<string> {
    if changes == [] then []
    else
      var c := changes[|changes| - 1];
      ChangedKeys(changes[..|changes| - 1]) + if c.kind != Unchanged then [c.key] else []
  }

  function AppliedKeys(pendings: seq<Pending>): seq<string> {
    seq(|pendings|, i requires 0 <= i < |pendings| => pendings[i].source.key)
  }

  // ---- The loops of Promote -----------------------------------------------

  /** No filter and a filter are told apart; a filter becomes a set. */
  method KeySet(keys: seq<string>) returns (wanted: Option<set<string>>)
    ensures wanted.None? <==> keys == []
    ensures forall key :: Wanted(keys, key) <==> wanted.None? || key in wanted.value
  {
    if |keys| == 0 {
      return None;
    }
    var s := {};
    for i := 0 to |keys|
      invariant forall key :: key in s <==> key in keys[..i]
    {
      s := s + {keys[i]};
    }
    assert keys[..|keys|] == keys;
    return Some(s);
  }

  method BuildPlan(source: seq<Resolved>, target: seq<Resolved>, keys: seq<string>, includeValues: bool)
    returns (changes: seq<Change>, toApply: seq<Pending>)
    ensures changes == Changes(source, ByKey(target), keys, includeValues)
    ensures toApply == ToApply(source, ByKey(target), keys)
    ensures |changes| == |WantedRows(source, keys)|
    ensures forall i | 0 <= i < |changes| :: Describes(changes[i], WantedRows(source, keys)[i], ByKey(target), includeValues)
  {
    hide Describes, WantedRows;
    var targetByKey: map<string, Resolved> := map[];
    for i := 0 to |target|
      invariant targetByKey == ByKey(target[..i])
    {
      assert target[..i + 1][..i] == target[..i];
      targetByKey := targetByKey[target[i].key := target[i]];
    }
    assert target[..|target|] == target;

    var wanted := KeySet(keys);
    changes, toApply := [], [];
    for i := 0 to |source|
      invariant changes == Changes(source[..i], targetByKey, keys, includeValues)
      invariant toApply == ToApply(source[..i], targetByKey, keys)
    {
      assert source[..i + 1][..i] == source[..i];
      var x := source[i];
      if wanted.None? || x.key in wanted.value {
        var found := x.key in targetByKey;
        var kind :=
          if !found then Added
          else if targetByKey[x.key].value == x.value then Unchanged
          else Changed;
        var change := Change(x.key, kind, !includeValues, None, None);
        if includeValues {
          change := change.(sourceValue := Some(x.value));
          if found {
            change := change.(targetValue := Some(targetByKey[x.key].value));
          }
        }
        changes := changes + [change];
        if kind != Unchanged {
          toApply := toApply + [Pending(x, if found then Some(targetByKey[x.key]) else None)];
        }
      }
    }
    assert source[..|source|] == source;
    PlanDescribesTheRows(source, ByKey(target), keys, includeValues);
  }

  method SealEntries(master: Key, project: Uuid, environment: Uuid, pendings: seq<Pending>, draws: seq<Draw>,
                     ids: seq<SecretId>)
    returns (entries: seq<Entry>)
    requires |draws| == |ids| == |pendings|
    ensures entries == SealAll(master, project, environment, pendings, draws, ids)
  {
    entries := [];
    for i := 0 to |pendings|
      invariant |entries| == i
      invariant forall j | 0 <= j < i :: entries[j] == SealOne(master, project, environment, pendings[j], draws[j], ids[j])
    {
      entries := entries + [SealOne(master, project, environment, pendings[i], draws[i], ids[i])];
    }
  }

  method ListChangedKeys(changes: seq<Change>) returns (keys: seq<string>)
    ensures keys == ChangedKeys(changes)
  {
    keys := [];
    for i := 0 to |changes|
      invariant keys == ChangedKeys(changes[..i])
    {
      assert changes[..i + 1][..i] == changes[..i];
      if changes[i].kind != Unchanged {
        keys := keys + [changes[i].key];
      }
    }
    assert changes[..|changes|] == changes;
  }

  // ---- What a plan says ----------------------------------------------------

  /** The wanted rows of the source, in its order. */
  function WantedRows(source: seq<Resolved>, keys: seq<string>): seq<Resolved> {
    if source == [] then []
    else
      var x := source[|source| - 1];
      WantedRows(source[..|source| - 1], keys) + if Wanted(keys, x.key) then [x] else []
  }

  /** What a plan says of a row of the source: added if the target lacks the key, unchanged
      if it holds the same value, otherwise changed; with both values if they are asked for. */
  ghost predicate Describes(c: Change, x: Resolved, target: map<string, Resolved>, includeValues: bool) {
    && c.key == x.key
    && (c.kind.Added? <==> x.key !in target)
    && (c.kind.Unchanged? <==> x.key in target && target[x.key].value == x.value)
    && (c.kind.Changed? <==> x.key in target && target[x.key].value != x.value)
    && (c.masked <==> !includeValues)
    && (c.sourceValue.Some? <==> includeValues)
    && (c.sourceValue.Some? ==> c.sourceValue.value == x.value)
    && (c.targetValue.Some? <==> includeValues && x.key in target)
    && (c.targetValue.Some? ==> c.targetValue.value == target[x.key].value)
  }

  /** A plan has one change for each wanted row of the source, in the source's order. */
  lemma {:induction false} PlanDescribesTheRows(source: seq<Resolved>, target: map<string, Resolved>,
                                                keys: seq<string>, includeValues: bool)
    ensures
      var changes, rows := Changes(source, target, keys, includeValues), WantedRows(source, keys);
      |changes| == |rows| && forall i | 0 <= i < |rows| :: Describes(changes[i], rows[i], target, includeValues)
  {
    if source != [] {
      PlanDescribesTheRows(source[..|source| - 1], target, keys, includeValues);
    }
  }

  /** Each row of the source whose key is named, or any if none are. */
  lemma {:induction false} WantedRowsAre(source: seq<Resolved>, keys: seq<string>, x: Resolved)
    ensures x in WantedRows(source, keys) <==> x in source && (keys == [] || x.key in keys)
  {
    if source != [] {
      var n := |source| - 1;
      WantedRowsAre(source[..n], keys, x);
      assert source == source[..n] + [source[n]];
    }
  }

  /** They are in the order of the source. */
  lemma {:induction false} WantedRowsAscend(source: seq<Resolved>, keys: seq<string>)
    requires forall i, j | 0 <= i < j < |source| :: Less(source[i].key, source[j].key)
    ensures forall i, j | 0 <= i < j < |WantedRows(source, keys)| ::
      Less(WantedRows(source, keys)[i].key, WantedRows(source, keys)[j].key)
  {
    if source != [] {
      var n := |source| - 1;
      var front := WantedRows(source[..n], keys);
      WantedRowsAscend(source[..n], keys);
      hide Less, Wanted;
      forall i | 0 <= i < |front| ensures Less(front[i].key, source[n].key) {
        WantedRowsAre(source[..n], keys, front[i]);
        var k :| 0 <= k < n && source[k] == front[i];
      }
    }
  }

  /** The plan shown by a dry run names exactly the writes that applying makes, in
      the same order, whether or not it includes the values. */
  lemma {:induction false} DryRunShowsTheWrites(source: seq<Resolved>, target: map<string, Resolved>,
                                                keys: seq<string>, includeValues: bool)
    ensures ChangedKeys(Changes(source, target, keys, includeValues)) == AppliedKeys(ToApply(source, target, keys))
    ensures |AppliedKeys(ToApply(source, target, keys))| == |ToApply(source, target, keys)|
    ensures forall i | 0 <= i < |ToApply(source, target, keys)| ::
      AppliedKeys(ToApply(source, target, keys))[i] == ToApply(source, target, keys)[i].source.key
  {
    if source != [] {
      var front := source[..|source| - 1];
      DryRunShowsTheWrites(front, target, keys, includeValues);
      var x := source[|source| - 1];
      var changes, before := Changes(source, target, keys, includeValues), ToApply(front, target, keys);
      if !Wanted(keys, x.key) {
        assert changes == Changes(front, target, keys, includeValues);
        assert ToApply(source, target, keys) == before;
      } else {
        assert changes[..|changes| - 1] == Changes(front, target, keys, includeValues);
        if Compare(x, target) == Unchanged {
          assert ToApply(source, target, keys) == before;
          assert ChangedKeys(changes) == ChangedKeys(changes[..|changes| - 1]);
        } else {
          var pending := Pending(x, Lookup(target, x.key));
          assert AppliedKeys(before + [pending]) == AppliedKeys(before) + [x.key];
        }
      }
    }
  }

  /** A masked plan carries no value. */
  lemma {:induction false} MaskedPlanHidesValues(source: seq<Resolved>, target: map<string, Resolved>,
                                                 keys: seq<string>)
    ensures forall c | c in Changes(source, target, keys, false) :: c.masked && c.sourceValue.None? && c.targetValue.None?
  {
    if source != [] {
      MaskedPlanHidesValues(source[..|source| - 1], target, keys);
    }
  }

  /** What is applied: exactly the wanted source values that the target lacks or
      holds differently, each with the target secret of its key. */
  lemma {:induction false} AppliedExactly(source: seq<Resolved>, target: map<string, Resolved>, keys: seq<string>,
                                          p: Pending)
    ensures p in ToApply(source, target, keys) <==>
              && p.source in source && Wanted(keys, p.source.key)
              && p.target == Lookup(target, p.source.key)
              && (p.target.None? || p.target.value.value != p.source.value)
  {
    if source != [] {
      AppliedExactly(source[..|source| - 1], target, keys, p);
      assert source == source[..|source| - 1] + [source[|source| - 1]];
    }
  }

  ghost predicate AscendingKeys(pendings: seq<Pending>) {
    forall i, j | 0 <= i < j < |pendings| :: Less(pendings[i].source.key, pendings[j].source.key)
  }

  lemma {:induction false} AppliedInKeyOrder(source: seq<Resolved>, target: map<string, Resolved>, keys: seq<string>)
    requires forall i, j | 0 <= i < j < |source| :: Less(source[i].key, source[j].key)
    ensures AscendingKeys(ToApply(source, target, keys))
  {
    if source != [] {
      var n := |source| - 1;
      var front := source[..n];
      AppliedInKeyOrder(front, target, keys);
      forall p | p in ToApply(front, target, keys) ensures Less(p.source.key, source[n].key) {
        AppliedExactly(front, target, keys, p);
        var i :| 0 <= i < n && source[i] == p.source;
      }
    }
  }
}
