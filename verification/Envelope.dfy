/** Envelope encryption: every value is sealed under its own data key, and the
    data key under a master key. AES-256-GCM is idealised: a sealed box is a free
    term that opens only with the key, nonce and associated data it was made
    with. Random draws (data key, nonces) are parameters. */
module Envelope {
  import opened Outcomes

  type Bytes = string
  type Key = nat
  type Nonce = nat

  /** What AEAD.Seal produces; `Forged` stands for bytes that Seal never made. */
  datatype Box<+P> = Box(key: Key, nonce: Nonce, payload: P, aad: Bytes) | Forged

  /** A data key sealed under a master key, the nonce in front; `Truncated` is
      a blob too short to hold a nonce and a tag. */
  datatype Wrapped = Wrapped(prefix: Nonce, box: Box<Key>) | Truncated

  datatype Sealed = Sealed(wrapped: Wrapped, nonce: Nonce, ciphertext: Box<Bytes>)

  /** The random material one Encrypt consumes. */
  datatype Draw = Draw(dek: Key, nonce: Nonce, wrapNonce: Nonce)

  function Open<P>(key: Key, nonce: Nonce, box: Box<P>, aad: Bytes): Result<P> {
    if box.Box? && box.key == key && box.nonce == nonce && box.aad == aad
    then Ok(box.payload)
    else Err(DecryptFailed)
  }

  function Wrap(master: Key, dek: Key, nonce: Nonce): Wrapped {
    Wrapped(nonce, Box(master, nonce, dek, ""))
  }

  function Unwrap(master: Key, wrapped: Wrapped): Result<Key> {
    if wrapped.Truncated? then Err(DecryptFailed)
    else Open(master, wrapped.prefix, wrapped.box, "")
  }

  function Encrypt(master: Key, plaintext: Bytes, aad: Bytes, draw: Draw): Sealed {
    Sealed(Wrap(master, draw.dek, draw.wrapNonce), draw.nonce,
           Box(draw.dek, draw.nonce, plaintext, aad))
  }

  function Decrypt(master: Key, sealed: Sealed, aad: Bytes): Result<Bytes> {
    var dek :- Unwrap(master, sealed.wrapped);
    Open(dek, sealed.nonce, sealed.ciphertext, aad)
  }

  function Rewrap(current: Key, sealed: Sealed, next: Key, nonce: Nonce): Result<Sealed> {
    var dek :- Unwrap(current, sealed.wrapped);
    Ok(sealed.(wrapped := Wrap(next, dek, nonce)))
  }

  /** A value opens exactly under the master key and the associated data it was
      sealed with, whatever was drawn. */
  lemma DecryptInvertsEncrypt(master: Key, master': Key, plaintext: Bytes, aad: Bytes, aad': Bytes, draw: Draw)
    ensures Decrypt(master', Encrypt(master, plaintext, aad, draw), aad')
         == if master' == master && aad' == aad then Ok(plaintext) else Err(DecryptFailed)
  {
  }

  /** Rotation is invisible to readers: Rewrap succeeds exactly when the data key
      unwraps, and what it returns opens under the next key, for every associated
      data, exactly as the original did under the current one. */
  lemma RewrapPreservesMeaning(current: Key, sealed: Sealed, next: Key, nonce: Nonce, aad: Bytes)
    ensures Rewrap(current, sealed, next, nonce).Ok? <==> Unwrap(current, sealed.wrapped).Ok?
    ensures Rewrap(current, sealed, next, nonce).Ok? ==>
              var rewrapped := Rewrap(current, sealed, next, nonce).value;
              && rewrapped.nonce == sealed.nonce
              && rewrapped.ciphertext == sealed.ciphertext
              && Unwrap(next, rewrapped.wrapped) == Unwrap(current, sealed.wrapped)
              && Decrypt(next, rewrapped, aad) == Decrypt(current, sealed, aad)
  {
  }

  /** Each value is sealed under the data key drawn for it, and each box and each wrapped
      key under its own nonce: with the wrapped key, the nonce or the wrapping nonce of
      another value, sealed with another draw, a value does not open. */
  lemma EachDrawIsItsOwn(master: Key, p: Bytes, p': Bytes, aad: Bytes, aad': Bytes, d: Draw, d': Draw)
    ensures
      var sealed, other := Encrypt(master, p, aad, d), Encrypt(master, p', aad', d');
      && (d.dek != d'.dek ==> Decrypt(master, sealed.(wrapped := other.wrapped), aad).Err?)
      && (d.nonce != d'.nonce ==> Decrypt(master, sealed.(nonce := other.nonce), aad).Err?)
      && sealed.wrapped.Wrapped? && other.wrapped.Wrapped?
      && (d.wrapNonce != d'.wrapNonce ==>
            Decrypt(master, sealed.(wrapped := sealed.wrapped.(prefix := other.wrapped.prefix)), aad).Err?)
  {
  }

  /** Rewrapping puts the data key under the next master key and no other, with the nonce
      drawn for it. */
  lemma RewrapIsUnderTheNextKey(current: Key, sealed: Sealed, next: Key, nonce: Nonce, nonce': Nonce, key: Key)
    requires Unwrap(current, sealed.wrapped).Ok?
    ensures
      var wrapped := Rewrap(current, sealed, next, nonce).value.wrapped;
      var other := Rewrap(current, sealed, next, nonce').value.wrapped;
      && (Unwrap(key, wrapped).Ok? <==> key == next)
      && wrapped.Wrapped? && other.Wrapped?
      && (Unwrap(next, wrapped.(prefix := other.prefix)).Ok? <==> nonce == nonce')
  {
  }

  // ---- Associated data ----------------------------------------------------

  const NUL: char := '\0'

  predicate NulFree(s: string) {
    NUL !in s
  }

  function SecretAAD(project: string, environment: string, key: string): Bytes {
    project + [NUL] + environment + [NUL] + key
  }

  /** Two texts cut at their first NUL agree on both sides of the cut. */
  lemma FirstNulSplits(a: string, b: string, rest: string, rest': string)
    requires NulFree(a) && NulFree(b)
    requires a + [NUL] + rest == b + [NUL] + rest'
    ensures a == b && rest == rest'
  {
    var s, s' := a + [NUL] + rest, b + [NUL] + rest';
    assert s[|a|] == NUL == s'[|b|];
    assert forall i | 0 <= i < |a| :: s[i] == a[i] != NUL;
    assert forall i | 0 <= i < |b| :: s[i] == b[i] != NUL;
    assert a == s[..|a|] == s'[..|b|] == b;
    assert rest == s[|a| + 1..] == s'[|b| + 1..] == rest';
  }

  /** The binding is unambiguous: with NUL-free identifiers, equal associated data
      means the same project, the same environment and the same key. */
  lemma SecretAADInjective(p: string, e: string, k: string, p': string, e': string, k': string)
    requires NulFree(p) && NulFree(e) && NulFree(p') && NulFree(e')
    ensures SecretAAD(p, e, k) == SecretAAD(p', e', k') <==> p == p' && e == e' && k == k'
  {
    if SecretAAD(p, e, k) == SecretAAD(p', e', k') {
      assert SecretAAD(p, e, k) == p + [NUL] + (e + [NUL] + k);
      assert SecretAAD(p', e', k') == p' + [NUL] + (e' + [NUL] + k');
      FirstNulSplits(p, p', e + [NUL] + k, e' + [NUL] + k');
      FirstNulSplits(e, e', k, k');
    }
  }

  /** Without that restriction two different identities share associated data. */
  lemma NulBreaksTheBinding()
    ensures SecretAAD("p\0q", "r", "K") == SecretAAD("p", "q\0r", "K")
    ensures "p\0q" != "p"
  {
  }
}
