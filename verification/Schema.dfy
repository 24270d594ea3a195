/** The `environments`, `secrets` and `secret_versions` tables, the invariants of
    their committed contents, and the relation to what users think is stored: for
    each secret an append-only list of plaintexts. */
module Schema {
  import opened Outcomes
  import opened Envelope

  /** Project and environment identifiers in their textual form. */
  type Uuid = s: string | NulFree(s) witness ""
  type SecretId = nat

  datatype EnvironmentRow = EnvironmentRow(project: Uuid, rank: int)
  datatype SecretRow = SecretRow(project: Uuid, environment: Uuid, key: string, current: nat, deleted: bool)
  /** The (secret_id, version) pair that a unique constraint protects. */
  datatype VersionKey = VersionKey(secret: SecretId, version: nat)

  datatype Tables = Tables(
    environments: map<Uuid, EnvironmentRow>,
    secrets: map<SecretId, SecretRow>,
    versions: map<VersionKey, Sealed>)

  /** What a user believes: secret id to its values, oldest first. */
  type History = map<SecretId, seq<string>>

  predicate Live(t: Tables, id: SecretId) {
    id in t.secrets && !t.secrets[id].deleted
  }

  predicate LiveKey(t: Tables, id: SecretId, environment: Uuid, key: string) {
    Live(t, id) && t.secrets[id].environment == environment && t.secrets[id].key == key
  }

  predicate KeyTaken(t: Tables, environment: Uuid, key: string) {
    exists id | id in t.secrets :: LiveKey(t, id, environment, key)
  }

  function IdentityOf(row: SecretRow): (Uuid, Uuid, string) {
    (row.project, row.environment, row.key)
  }

  function AadOf(row: SecretRow): Bytes {
    SecretAAD(row.project, row.environment, row.key)
  }

  // ---- Secret keys --------------------------------------------------------

  const MAX_SECRET_KEY_LEN := 128

  predicate Upper(c: char) { 'A' <= c <= 'Z' }

  predicate KeyChar(c: char) { Upper(c) || '0' <= c <= '9' || c == '_' }

  /** secretKeyPattern and the length limit, on an already trimmed key. */
  predicate ValidKey(key: string) {
    && 0 < |key| <= MAX_SECRET_KEY_LEN
    && Upper(key[0])
    && forall i | 0 <= i < |key| :: KeyChar(key[i])
  }

  /** The pattern and the limit, character by character: a key begins with a capital letter
      and goes on with up to 127 capitals, digits and underscores. */
  lemma KeysAreBuilt(key: string, c: char)
    ensures !ValidKey([]) && (ValidKey([c]) <==> 'A' <= c <= 'Z')
    ensures key != [] ==>
      (ValidKey(key + [c]) <==> ValidKey(key) && |key| < 128 && ('A' <= c <= 'Z' || '0' <= c <= '9' || c == '_'))
  {
    var longer := key + [c];
    assert longer[|key|] == c && forall i | 0 <= i < |key| :: longer[i] == key[i];
  }

  // ---- Invariants of the committed tables ---------------------------------

  ghost predicate Sound(t: Tables) {
    && VersionsAreContiguous(t)
    && OwnersAgree(t)
    && LiveKeysAreUnique(t)
  }

  /** Each secret has exactly the versions 1..current, and nothing else does. */
  ghost predicate VersionsAreContiguous(t: Tables) {
    && (forall id | id in t.secrets :: 1 <= t.secrets[id].current)
    && forall k :: k in t.versions <==>
         k.secret in t.secrets && 1 <= k.version <= t.secrets[k.secret].current
  }

  /** A secret's project is its environment's project. */
  ghost predicate OwnersAgree(t: Tables) {
    forall id | id in t.secrets ::
      && t.secrets[id].environment in t.environments
      && t.environments[t.secrets[id].environment].project == t.secrets[id].project
      && ValidKey(t.secrets[id].key)
  }

  ghost predicate LiveKeysAreUnique(t: Tables) {
    forall id, id' {:trigger Live(t, id), Live(t, id')} | Live(t, id) && Live(t, id')
      && t.secrets[id].environment == t.secrets[id'].environment
      && t.secrets[id].key == t.secrets[id'].key :: id == id'
  }

  ghost predicate Refines(master: Key, t: Tables, h: History) {
    && h.Keys == t.secrets.Keys
    && forall id | id in h :: RowRefines(master, t, id, h[id])
  }

  /** The secret's versions open, under the secret's identity, to these values. */
  ghost predicate RowRefines(master: Key, t: Tables, id: SecretId, values: seq<string>)
    requires id in t.secrets
  {
    && |values| == t.secrets[id].current
    && forall i | 0 <= i < |values| :: Opens(master, t, id, i, values[i])
  }

  /** Entry i of a history is version i + 1. */
  ghost predicate Opens(master: Key, t: Tables, id: SecretId, i: nat, value: string)
    requires id in t.secrets
  {
    var k := VersionKey(id, i + 1);
    k in t.versions && Decrypt(master, t.versions[k], AadOf(t.secrets[id])) == Ok(value)
  }

  /** The tables only ever grow: nothing committed is changed or removed, except
      that a version counter rises and a live secret may become deleted. */
  ghost predicate Grows(t: Tables, t': Tables) {
    && (forall e | e in t.environments :: e in t'.environments && t'.environments[e] == t.environments[e])
    && (forall id | id in t.secrets :: id in t'.secrets && RowGrows(t.secrets[id], t'.secrets[id]))
    && (forall k | k in t.versions :: k in t'.versions && t'.versions[k] == t.versions[k])
  }

  ghost predicate RowGrows(row: SecretRow, row': SecretRow) {
    && row' == row.(current := row'.current, deleted := row'.deleted)
    && row.current <= row'.current
    && (row.deleted ==> row'.deleted)
  }

  ghost predicate Extends(h: History, h': History) {
    forall id | id in h :: id in h' && h[id] <= h'[id]
  }

  lemma GrowsReflexive(t: Tables)
    ensures Grows(t, t)
  {
  }

  lemma GrowsTransitive(t: Tables, t': Tables, t'': Tables)
    requires Grows(t, t') && Grows(t', t'')
    ensures Grows(t, t'')
  {
  }

  // ---- The one write every operation is built from -------------------------

  /** Bump the version counter and insert the row for the new number. */
  function Append(t: Tables, id: SecretId, sealed: Sealed): Tables
    requires id in t.secrets
  {
    var v := t.secrets[id].current + 1;
    t.(secrets := t.secrets[id := t.secrets[id].(current := v)],
       versions := t.versions[VersionKey(id, v) := sealed])
  }

  function AddSecret(t: Tables, id: SecretId, project: Uuid, environment: Uuid, key: string, sealed: Sealed): Tables {
    Append(t.(secrets := t.secrets[id := SecretRow(project, environment, key, 0, false)]), id, sealed)
  }

  lemma LiveKeysStayUnique(t: Tables, t': Tables)
    requires LiveKeysAreUnique(t)
    requires forall id | Live(t', id) :: Live(t, id) && IdentityOf(t'.secrets[id]) == IdentityOf(t.secrets[id])
    ensures LiveKeysAreUnique(t')
  {
  }

  lemma AppendKeepsContiguity(t: Tables, id: SecretId, sealed: Sealed)
    requires VersionsAreContiguous(t) && id in t.secrets
    ensures VersionsAreContiguous(Append(t, id, sealed))
  {
  }

  lemma AppendGrows(t: Tables, id: SecretId, sealed: Sealed)
    requires id in t.secrets && VersionKey(id, t.secrets[id].current + 1) !in t.versions
    ensures Grows(t, Append(t, id, sealed))
  {
  }

  /** The unique constraint on (secret_id, version) cannot fire. */
  lemma AppendIsSound(t: Tables, id: SecretId, sealed: Sealed)
    requires Sound(t) && id in t.secrets
    ensures VersionKey(id, t.secrets[id].current + 1) !in t.versions
    ensures Sound(Append(t, id, sealed)) && Grows(t, Append(t, id, sealed))
  {
    var t' := Append(t, id, sealed);
    LiveKeysStayUnique(t, t');
    AppendKeepsContiguity(t, id, sealed);
    AppendGrows(t, id, sealed);
    hide LiveKeysAreUnique, VersionsAreContiguous, Grows;
  }

  lemma NewKeyIsUnique(t: Tables, id: SecretId, project: Uuid, environment: Uuid, key: string, sealed: Sealed)
    requires LiveKeysAreUnique(t) && id !in t.secrets && !KeyTaken(t, environment, key)
    ensures LiveKeysAreUnique(AddSecret(t, id, project, environment, key, sealed))
  {
    var t' := AddSecret(t, id, project, environment, key, sealed);
    forall a, b | Live(t', a) && Live(t', b)
      && t'.secrets[a].environment == t'.secrets[b].environment && t'.secrets[a].key == t'.secrets[b].key
      ensures a == b
    {
      if a != id && b != id {
        assert Live(t, a) && Live(t, b);
      } else if a == id && b != id {
        assert LiveKey(t, b, environment, key);
      } else if a != id {
        assert LiveKey(t, a, environment, key);
      }
    }
  }

  lemma AddSecretKeepsContiguity(t: Tables, id: SecretId, project: Uuid, environment: Uuid, key: string, sealed: Sealed)
    requires VersionsAreContiguous(t) && id !in t.secrets
    ensures VersionsAreContiguous(AddSecret(t, id, project, environment, key, sealed))
  {
  }

  lemma AddSecretGrows(t: Tables, id: SecretId, project: Uuid, environment: Uuid, key: string, sealed: Sealed)
    requires id !in t.secrets && VersionKey(id, 1) !in t.versions
    ensures Grows(t, AddSecret(t, id, project, environment, key, sealed))
  {
  }

  lemma AddSecretIsSound(t: Tables, id: SecretId, project: Uuid, environment: Uuid, key: string, sealed: Sealed)
    requires Sound(t) && id !in t.secrets && !KeyTaken(t, environment, key) && ValidKey(key)
    requires environment in t.environments && t.environments[environment].project == project
    ensures VersionKey(id, 1) !in t.versions
    ensures Sound(AddSecret(t, id, project, environment, key, sealed))
    ensures Grows(t, AddSecret(t, id, project, environment, key, sealed))
  {
    var t' := AddSecret(t, id, project, environment, key, sealed);
    NewKeyIsUnique(t, id, project, environment, key, sealed);
    AddSecretKeepsContiguity(t, id, project, environment, key, sealed);
    AddSecretGrows(t, id, project, environment, key, sealed);
    hide LiveKeysAreUnique, VersionsAreContiguous, Grows;
  }

  lemma AppendRefines(master: Key, t: Tables, h: History, id: SecretId, sealed: Sealed, value: string)
    requires Sound(t) && Refines(master, t, h) && id in t.secrets
    requires Decrypt(master, sealed, AadOf(t.secrets[id])) == Ok(value)
    ensures Refines(master, Append(t, id, sealed), h[id := h[id] + [value]])
  {
  }

  lemma AddSecretRefines(master: Key, t: Tables, h: History, id: SecretId, project: Uuid, environment: Uuid,
                         key: string, sealed: Sealed, value: string)
    requires Sound(t) && Refines(master, t, h) && id !in t.secrets
    requires Decrypt(master, sealed, SecretAAD(project, environment, key)) == Ok(value)
    ensures Refines(master, AddSecret(t, id, project, environment, key, sealed), h[id := [value]])
  {
  }

  // ---- What the invariants give a reader -----------------------------------

  /** The history is determined by the tables: there is only one refinement. */
  lemma HistoryIsDetermined(master: Key, t: Tables, h: History, h': History)
    requires Refines(master, t, h) && Refines(master, t, h')
    ensures h == h'
  {
    forall id | id in h ensures h[id] == h'[id] {
      assert RowRefines(master, t, id, h[id]) && RowRefines(master, t, id, h'[id]);
      forall i | 0 <= i < |h[id]| ensures h[id][i] == h'[id][i] {
        assert Opens(master, t, id, i, h[id][i]) && Opens(master, t, id, i, h'[id][i]);
      }
    }
  }

  /** Every stored version opens under its own secret's identity and no other. */
  lemma BoundToItsIdentity(master: Key, t: Tables, h: History, k: VersionKey, p: Uuid, e: Uuid, key: string)
    requires Sound(t) && Refines(master, t, h) && k in t.versions
    ensures k.secret in h && 1 <= k.version <= |h[k.secret]|
    ensures Decrypt(master, t.versions[k], SecretAAD(p, e, key))
         == (if IdentityOf(t.secrets[k.secret]) == (p, e, key)
             then Ok(h[k.secret][k.version - 1]) else Err(DecryptFailed))
  {
    var row := t.secrets[k.secret];
    assert RowRefines(master, t, k.secret, h[k.secret]);
    assert Opens(master, t, k.secret, k.version - 1, h[k.secret][k.version - 1]);
    assert k == VersionKey(k.secret, k.version);
    SecretAADInjective(p, e, key, row.project, row.environment, row.key);
  }
}
