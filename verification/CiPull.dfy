/** What a CI job gets: the values of its token's environment as a file of assignments. */
module CiPull {
  import opened Outcomes
  import opened Envelope
  import opened Dotenv
  import opened Schema
  import opened Listing
  import opened PromotionEffect
  import opened ParallelResolve
  import opened Requests
  import opened Guarantees

  function ValuesOf(resolved: seq<Resolved>): map<string, string> {
    if resolved == [] then map[]
    else
      var x := resolved[|resolved| - 1];
      ValuesOf(resolved[..|resolved| - 1])[x.key := x.value]
  }

  /** The loop that turns the resolved list into a map, and the keys for the audit log. */
  method CollectValues(resolved: seq<Resolved>) returns (values: map<string, string>, keys: seq<string>)
    ensures values == ValuesOf(resolved) && keys == Keys(resolved)
  {
    values, keys := map[], [];
    for i := 0 to |resolved|
      invariant values == ValuesOf(resolved[..i])
      invariant |keys| == i && forall k | 0 <= k < i :: keys[k] == resolved[k].key
    {
      assert resolved[..i + 1][..i] == resolved[..i];
      values := values[resolved[i].key := resolved[i].value];
      keys := keys + [resolved[i].key];
    }
    assert resolved[..|resolved|] == resolved;
  }

  lemma {:induction false} ValuesAreByKey(resolved: seq<Resolved>)
    ensures ValuesOf(resolved) == map k | k in ByKey(resolved) :: ByKey(resolved)[k].value
  {
    if resolved != [] {
      ValuesAreByKey(resolved[..|resolved| - 1]);
    }
  }

  ghost predicate NoNulIn(t: Tables, h: History, environment: Uuid)
    requires h.Keys == t.secrets.Keys
  {
    forall k :: Current(t, h, environment, k).Some? ==> NulFree(Current(t, h, environment, k).value)
  }

  lemma NoNulInValues(t: Tables, h: History, environment: Uuid, values: map<string, string>)
    requires h.Keys == t.secrets.Keys
    requires forall k :: Current(t, h, environment, k) == if k in values then Some(values[k]) else None
    ensures NoNulIn(t, h, environment) <==> forall k | k in values :: NulFree(values[k])
  {
    hide Current, NulFree;
    if NoNulIn(t, h, environment) {
      forall k | k in values ensures NulFree(values[k]) {
        assert Current(t, h, environment, k) == Some(values[k]);
      }
    }
  }

  /** In any reachable state, with a token minted at any earlier point and any schedule of
      the workers: a pull that is answered is a file that can be read back if and only if no
      current value has a NUL, and then holds exactly the current value of every key of the
      environment and nothing else. */
  lemma PulledFileIsTheEnvironment(m: Key, actions: seq<Action>, i: nat, j: Job, g: Group, schedule: seq<Step>,
                                   slots: seq<Resolved>, out: seq<Resolved>, keys: seq<string>, key: string)
    requires i <= |actions| && CheckedBefore(m, actions, i, j.project, j.environment)
    requires j.master == m && Selects(Run(m, EMPTY, actions).t, j.environment, j.rows)
    requires Play(j, schedule) == Some(g) && Done(j, g) && g.error.None?
    requires HoldsSlots(g, slots) && SortedByKey(slots, out) && IsSorting(keys, ValuesOf(out))
    ensures
      var t, h := Run(m, EMPTY, actions).t, ObserveAll(m, EMPTY, map[], actions);
      var read := ReadFile(Render(keys, ValuesOf(out)));
      && Refines(m, t, h)
      && (read.Some? <==> NoNulIn(t, h, j.environment))
      && (read.Some? ==>
            Current(t, h, j.environment, key) == if key in read.value then Some(read.value[key]) else None)
  {
    RunRefines(m, EMPTY, map[], actions);
    StillOfTheProject(m, actions, i, j.project, j.environment);
    var t, h := Run(m, EMPTY, actions).t, ObserveAll(m, EMPTY, map[], actions);
    assert Sound(t) && Refines(m, t, h);
    hide Run, ObserveAll, Selects, Play, Done, CheckedBefore;
    PoolReturnsTheList(j, t, h, g, schedule, slots, out);
    ListIsKeyed(m, t, j.project, j.environment, out);
    forall k ensures Current(t, h, j.environment, k) == if k in ByKey(out) then Some(ByKey(out)[k].value) else None {
      ListAgreesWithHistory(m, t, h, j.project, j.environment, out, k);
    }
    KeysAreValid(out);
    hide Sound, Refines, Lists, Current, Render, ReadFile, ByKey;
    ValuesAreByKey(out);
    RoundTrip(keys, ValuesOf(out));
    NoNulInValues(t, h, j.environment, ValuesOf(out));
  }

  lemma KeysAreValid(resolved: seq<Resolved>)
    requires KeyedList(resolved)
    ensures forall k | k in ValuesOf(resolved) :: ValidKey(k)
  {
    ValuesAreByKey(resolved);
    forall k | k in ByKey(resolved) ensures ValidKey(k) {
      var i :| 0 <= i < |resolved| && resolved[i] == ByKey(resolved)[k];
    }
  }
}
