/** What an environment currently holds, seen two ways: the list that
    resolveEnvironmentValues returns, and a lookup by key in the history. */
module Listing {
  import opened Outcomes
  import opened Envelope
  import opened Ordering
  import opened Schema

  datatype Resolved = Resolved(id: SecretId, key: string, value: string, version: nat)

  /** The newest version of a live secret, opened under the identity asked for. */
  ghost predicate ResolvesTo(master: Key, t: Tables, project: Uuid, environment: Uuid, x: Resolved) {
    && LiveKey(t, x.id, environment, x.key)
    && IsNewest(t, x.id, x.version)
    && Decrypt(master, t.versions[VersionKey(x.id, x.version)], SecretAAD(project, environment, x.key)) == Ok(x.value)
  }

  /** The secret's greatest version number. */
  ghost predicate IsNewest(t: Tables, id: SecretId, v: nat) {
    && VersionKey(id, v) in t.versions
    && forall v': nat | VersionKey(id, v') in t.versions :: v' <= v
  }

  /** Every live secret of the environment once, resolved, in key order. */
  ghost predicate Lists(master: Key, t: Tables, project: Uuid, environment: Uuid, values: seq<Resolved>) {
    && (forall i, j | 0 <= i < j < |values| :: Less(values[i].key, values[j].key))
    && (forall i | 0 <= i < |values| :: ResolvesTo(master, t, project, environment, values[i]))
    && (forall id | Live(t, id) && t.secrets[id].environment == environment ::
          exists i :: 0 <= i < |values| && values[i].id == id)
  }

  /** The value under a key, as the history tells it. */
  ghost function Current(t: Tables, h: History, environment: Uuid, key: string): Option<string>
    requires h.Keys == t.secrets.Keys
  {
    if KeyTaken(t, environment, key) then
      var id :| id in t.secrets && LiveKey(t, id, environment, key);
      if h[id] == [] then None else Some(h[id][|h[id]| - 1])
    else None
  }

  /** The same lookup in a list: Go builds this map when it indexes the target. */
  function ByKey(values: seq<Resolved>): (m: map<string, Resolved>)
    ensures forall k | k in m :: m[k].key == k && m[k] in values
    ensures forall i | 0 <= i < |values| :: values[i].key in m
  {
    if values == [] then map[]
    else
      var x := values[|values| - 1];
      ByKey(values[..|values| - 1])[x.key := x]
  }

  lemma NewestIsCurrent(t: Tables, id: SecretId, v: nat)
    requires Sound(t) && id in t.secrets
    ensures IsNewest(t, id, v) <==> v == t.secrets[id].current
  {
    assert VersionKey(id, t.secrets[id].current) in t.versions;
    assert forall v': nat | VersionKey(id, v') in t.versions :: v' <= t.secrets[id].current;
  }

  lemma CurrentIsLast(master: Key, t: Tables, h: History, environment: Uuid, key: string, id: SecretId)
    requires Sound(t) && Refines(master, t, h) && LiveKey(t, id, environment, key)
    ensures h[id] != [] && Current(t, h, environment, key) == Some(h[id][|h[id]| - 1])
  {
    assert RowRefines(master, t, id, h[id]);
    assert forall x | LiveKey(t, x, environment, key) :: Live(t, x) && Live(t, id) && x == id;
  }

  /** A resolved row carries the last value of its secret's history. */
  lemma ResolvedIsLast(master: Key, t: Tables, h: History, project: Uuid, environment: Uuid, x: Resolved)
    requires Sound(t) && Refines(master, t, h) && ResolvesTo(master, t, project, environment, x)
    ensures x.version == t.secrets[x.id].current == |h[x.id]| && h[x.id][|h[x.id]| - 1] == x.value
    ensures Current(t, h, environment, x.key) == Some(x.value)
  {
    NewestIsCurrent(t, x.id, x.version);
    assert RowRefines(master, t, x.id, h[x.id]);
    assert Opens(master, t, x.id, x.version - 1, h[x.id][x.version - 1]);
    var row := t.secrets[x.id];
    SecretAADInjective(project, environment, x.key, row.project, row.environment, row.key);
    CurrentIsLast(master, t, h, environment, x.key, x.id);
  }

  /** Looking a key up in the list and in the history give the same answer. */
  lemma ListAgreesWithHistory(master: Key, t: Tables, h: History, project: Uuid, environment: Uuid,
                              values: seq<Resolved>, key: string)
    requires Sound(t) && Refines(master, t, h) && Lists(master, t, project, environment, values)
    ensures Current(t, h, environment, key) ==
            (if key in ByKey(values) then Some(ByKey(values)[key].value) else None)
  {
    hide Sound, Refines;
    var m := ByKey(values);
    if key in m {
      var i :| 0 <= i < |values| && values[i] == m[key];
      assert ResolvesTo(master, t, project, environment, m[key]);
      ResolvedIsLast(master, t, h, project, environment, m[key]);
    } else {
      ListCoversKeys(master, t, project, environment, values, key);
    }
  }

  lemma ListCoversKeys(master: Key, t: Tables, project: Uuid, environment: Uuid, values: seq<Resolved>, key: string)
    requires Lists(master, t, project, environment, values)
    ensures KeyTaken(t, environment, key) <==> key in ByKey(values)
  {
    var m := ByKey(values);
    if KeyTaken(t, environment, key) {
      var id :| id in t.secrets && LiveKey(t, id, environment, key);
      var i :| 0 <= i < |values| && values[i].id == id;
      assert ResolvesTo(master, t, project, environment, values[i]);
      assert values[i].key == key;
    }
    if key in m {
      var i :| 0 <= i < |values| && values[i] == m[key];
      assert ResolvesTo(master, t, project, environment, values[i]);
    }
  }

  function Keys(values: seq<Resolved>): seq<string> {
    seq(|values|, i requires 0 <= i < |values| => values[i].key)
  }

  lemma KeyIsCovered(master: Key, t: Tables, project: Uuid, environment: Uuid, a: seq<Resolved>, b: seq<Resolved>,
                     i: nat)
    requires Lists(master, t, project, environment, a) && Lists(master, t, project, environment, b) && i < |a|
    ensures exists j :: 0 <= j < |b| && b[j].key == a[i].key
  {
    assert ResolvesTo(master, t, project, environment, a[i]);
    assert Live(t, a[i].id);
    var j :| 0 <= j < |b| && b[j].id == a[i].id;
    assert ResolvesTo(master, t, project, environment, b[j]);
  }

  lemma KeysAreCovered(master: Key, t: Tables, project: Uuid, environment: Uuid, a: seq<Resolved>, b: seq<Resolved>,
                       k: string)
    requires Lists(master, t, project, environment, a) && Lists(master, t, project, environment, b)
    requires k in Keys(a)
    ensures k in Keys(b)
  {
    hide Lists;
    var i :| 0 <= i < |Keys(a)| && Keys(a)[i] == k;
    KeyIsCovered(master, t, project, environment, a, b, i);
    var j :| 0 <= j < |b| && b[j].key == a[i].key;
    assert Keys(b)[j] == k;
  }

  lemma KeysAscend(values: seq<Resolved>)
    requires forall i, j | 0 <= i < j < |values| :: Less(values[i].key, values[j].key)
    ensures Ascending(Keys(values))
  {
  }

  lemma KeysAgree(master: Key, t: Tables, project: Uuid, environment: Uuid, a: seq<Resolved>, b: seq<Resolved>)
    requires Lists(master, t, project, environment, a) && Lists(master, t, project, environment, b)
    ensures Keys(a) == Keys(b)
  {
    KeysAscend(a);
    KeysAscend(b);
    hide Lists, Keys, Ascending;
    forall k ensures k in Keys(a) <==> k in Keys(b) {
      if k in Keys(a) {
        KeysAreCovered(master, t, project, environment, a, b, k);
      }
      if k in Keys(b) {
        KeysAreCovered(master, t, project, environment, b, a, k);
      }
    }
    AscendingIsUnique(Keys(a), Keys(b));
  }

  /** Two lists of one environment are the same list. */
  lemma ListIsDetermined(master: Key, t: Tables, project: Uuid, environment: Uuid, a: seq<Resolved>, b: seq<Resolved>)
    requires Sound(t) && Lists(master, t, project, environment, a) && Lists(master, t, project, environment, b)
    ensures a == b
  {
    KeysAgree(master, t, project, environment, a, b);
    assert |a| == |Keys(a)| == |Keys(b)| == |b|;
    forall i | 0 <= i < |a| ensures a[i] == b[i] {
      assert Keys(a)[i] == Keys(b)[i];
      ResolutionIsDetermined(master, t, project, environment, a[i], b[i]);
    }
  }

  lemma ResolutionIsDetermined(master: Key, t: Tables, project: Uuid, environment: Uuid, x: Resolved, y: Resolved)
    requires Sound(t) && x.key == y.key
    requires ResolvesTo(master, t, project, environment, x) && ResolvesTo(master, t, project, environment, y)
    ensures x == y
  {
    assert Live(t, x.id) && Live(t, y.id);
    NewestIsCurrent(t, x.id, x.version);
    NewestIsCurrent(t, y.id, y.version);
  }

  // ---- Reading one secret -------------------------------------------------

  /** Reveal reads the secret's row, then its newest version; other requests may
      have committed in between. What it decrypts is the last value as of the
      second read, and it never fails. */
  lemma RevealYieldsTheLastValue(master: Key, t: Tables, t': Tables, h': History, id: SecretId, v: nat)
    requires id in t.secrets && Grows(t, t') && Sound(t') && Refines(master, t', h')
    requires IsNewest(t', id, v)
    ensures h'[id] != [] && v == |h'[id]|
    ensures Decrypt(master, t'.versions[VersionKey(id, v)], AadOf(t.secrets[id])) == Ok(h'[id][|h'[id]| - 1])
  {
    NewestIsCurrent(t', id, v);
    RevealVersionYieldsThatValue(master, t, t', h', id, v);
  }

  /** RevealVersion finds a row exactly for 1..current, and it holds that entry. */
  lemma RevealVersionYieldsThatValue(master: Key, t: Tables, t': Tables, h': History, id: SecretId, v: nat)
    requires id in t.secrets && Grows(t, t') && Sound(t') && Refines(master, t', h')
    ensures VersionKey(id, v) in t'.versions <==> 1 <= v <= |h'[id]|
    ensures VersionKey(id, v) in t'.versions ==>
              Decrypt(master, t'.versions[VersionKey(id, v)], AadOf(t.secrets[id])) == Ok(h'[id][v - 1])
  {
    assert RowRefines(master, t', id, h'[id]);
    assert RowGrows(t.secrets[id], t'.secrets[id]);
    if 1 <= v <= |h'[id]| {
      assert Opens(master, t', id, v - 1, h'[id][v - 1]);
    }
  }
}
