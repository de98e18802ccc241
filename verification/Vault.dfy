/**
 Envelope encryption over an ideal AEAD: a box opens only under the key and the associated data
 it was sealed with, and then gives back exactly what went in.
 */
module Vault {
  import opened Options

  type Bytes = seq<nat>
  type KeyId = nat

  const KEY_LEN := 32

  datatype Blob = Box(key: Bytes, nonce: nat, plain: Bytes, aad: Bytes) | Junk(data: Bytes)

  /** ErrUnwrap and ErrOpen are the wrapped key and the secret failing to authenticate. */
  datatype Error = ErrSealed | ErrUnknownKEK | ErrBadKeyLen | ErrBadVersion | ErrUnwrap | ErrOpen | ErrNotFound

  datatype Result<+T> = Ok(value: T) | Err(error: Error)

  datatype Sealed = Sealed(kekVersion: int, wrappedDek: Blob, ciphertext: Blob)

  function AeadOpen(key: Bytes, blob: Blob, aad: Bytes): Option<Bytes> {
    if |key| == KEY_LEN && blob.Box? && blob.key == key && blob.aad == aad then Some(blob.plain) else None
  }

  /** The data key inside a sealed value, under the KEK version it names. */
  function Unwrapped(keks: map<int, Bytes>, s: Sealed, aad: Bytes): Result<Bytes> {
    if s.kekVersion !in keks then Err(ErrUnknownKEK)
    else
      match AeadOpen(keks[s.kekVersion], s.wrappedDek, aad)
      case None => Err(ErrUnwrap)
      case Some(dek) => Ok(dek)
  }

  /** What a vault holding these KEKs makes of a sealed value. */
  function Opened(keks: map<int, Bytes>, s: Sealed, aad: Bytes): Result<Bytes> {
    match Unwrapped(keks, s, aad)
    case Err(e) => Err(e)
    case Ok(dek) =>
      match AeadOpen(dek, s.ciphertext, aad)
      case None => Err(ErrOpen)
      case Some(plain) => Ok(plain)
  }

  /** Same secret under the same data key, perhaps wrapped again under another KEK. */
  ghost predicate SameSecret(keks: map<int, Bytes>, a: Sealed, b: Sealed, aad: Bytes) {
    b.ciphertext == a.ciphertext && Unwrapped(keks, b, aad) == Unwrapped(keks, a, aad)
  }

  lemma SameSecretOpensSame(keks: map<int, Bytes>, a: Sealed, b: Sealed, aad: Bytes)
    requires SameSecret(keks, a, b, aad)
    ensures Opened(keks, b, aad) == Opened(keks, a, aad)
  {}

  class Vault {
    var keks: map<int, Bytes>
    var current: int

    /** current is the highest version held, or 0 when there is none. */
    ghost predicate Valid()
      reads this
    {
      && (forall v :: v in keks ==> 1 <= v <= current && |keks[v]| == KEY_LEN)
      && (current == 0 <==> keks == map[])
      && (current != 0 ==> current in keks)
    }

    constructor ()
      ensures Valid() && keks == map[]
    {
      keks := map[];
      current := 0;
    }

    method Unseal(version: int, kek: Bytes) returns (r: Result<()>)
      requires Valid()
      modifies this
      ensures Valid()
      ensures r.Err? ==> keks == old(keks) && current == old(current)
      ensures r.Ok? <==> |kek| == 32 && version >= 1
      ensures r.Ok? ==> keks == old(keks)[version := kek] && current == if version > old(current) then version else old(current)
    {
      if |kek| != KEY_LEN {
        return Err(ErrBadKeyLen);
      }
      if version < 1 {
        return Err(ErrBadVersion);
      }
      keks := keks[version := kek];
      assert version in keks;
      if version > current {
        current := version;
      }
      return Ok(());
    }

    /** Drops every KEK. */
    method Seal()
      requires Valid()
      modifies this
      ensures Valid() && keks == map[] && current == 0
    {
      keks := map[];
      current := 0;
    }

    /** dek and the nonces stand for fresh randomness. */
    method Encrypt(plain: Bytes, aad: Bytes, dek: Bytes, nonce: nat, wrapNonce: nat) returns (r: Result<Sealed>)
      requires Valid() && |dek| == KEY_LEN
      ensures r.Err? <==> current == 0
      ensures r.Ok? ==> r.value.kekVersion == current && Opened(keks, r.value, aad) == Ok(plain)
      ensures r.Ok? ==> forall other: Bytes :: other != aad ==> Opened(keks, r.value, other).Err?
    {
      if current == 0 {
        return Err(ErrSealed);
      }
      return Ok(Sealed(current, Box(keks[current], wrapNonce, dek, aad), Box(dek, nonce, plain, aad)));
    }

    method Decrypt(s: Sealed, aad: Bytes) returns (r: Result<Bytes>)
      requires Valid()
      ensures r == if current == 0 then Err(ErrSealed) else Opened(keks, s, aad)
      ensures r.Ok? ==>
        && s.kekVersion in keks && s.wrappedDek.Box? && s.wrappedDek.key == keks[s.kekVersion] && s.wrappedDek.aad == aad
        && s.ciphertext.Box? && s.ciphertext.key == s.wrappedDek.plain && s.ciphertext.aad == aad
        && r.value == s.ciphertext.plain
      ensures current != 0 ==> (r == Err(ErrUnknownKEK) <==> s.kekVersion !in keks)
      ensures r == Err(ErrOpen) ==> s.wrappedDek.Box? && s.wrappedDek.key == keks[s.kekVersion] && s.wrappedDek.aad == aad
    {
      if current == 0 {
        return Err(ErrSealed);
      }
      if s.kekVersion !in keks {
        return Err(ErrUnknownKEK);
      }
      var dek := AeadOpen(keks[s.kekVersion], s.wrappedDek, aad);
      if dek.None? {
        return Err(ErrUnwrap);
      }
      var plain := AeadOpen(dek.value, s.ciphertext, aad);
      if plain.None? {
        return Err(ErrOpen);
      }
      return Ok(plain.value);
    }

    /** The data key under the current KEK; the ciphertext is not touched. */
    method Rewrap(s: Sealed, aad: Bytes, nonce: nat) returns (r: Result<Sealed>)
      requires Valid()
      ensures r.Ok? ==> r.value.kekVersion == current && SameSecret(keks, s, r.value, aad)
      ensures r.Ok? && s.kekVersion == current ==> r.value == s
      ensures r.Ok? && s.kekVersion != current ==>
        && current in keks && r.value.ciphertext == s.ciphertext && s.wrappedDek.Box?
        && r.value.wrappedDek == Box(keks[current], nonce, s.wrappedDek.plain, aad)
      ensures r.Err? <==> current == 0 || (s.kekVersion != current && Unwrapped(keks, s, aad).Err?)
    {
      if current == 0 {
        return Err(ErrSealed);
      }
      if s.kekVersion == current {
        return Ok(s);
      }
      if s.kekVersion !in keks {
        return Err(ErrUnknownKEK);
      }
      var dek := AeadOpen(keks[s.kekVersion], s.wrappedDek, aad);
      if dek.None? {
        return Err(ErrUnwrap);
      }
      return Ok(Sealed(current, Box(keks[current], nonce, dek.value, aad), s.ciphertext));
    }
  }

  // ---- rotating the KEK over stored material ----

  type Material = map<KeyId, Sealed>

  /** Part of a rotation: the same keys hold the same secrets, each as it was or at the current version. */
  ghost predicate Rotating(keks: map<int, Bytes>, current: int, aadOf: KeyId -> Bytes, before: Material, after: Material) {
    && after.Keys == before.Keys
    && forall k :: k in before ==>
        && SameSecret(keks, before[k], after[k], aadOf(k))
        && (after[k] == before[k] || (before[k].kekVersion < current == after[k].kekVersion))
  }

  ghost predicate AllCurrent(current: int, m: Material) {
    forall k :: k in m ==> m[k].kekVersion == current
  }

  ghost predicate AllKnown(keks: map<int, Bytes>, m: Material) {
    forall k :: k in m ==> m[k].kekVersion in keks
  }

  ghost predicate Unwrappable(keks: map<int, Bytes>, aadOf: KeyId -> Bytes, m: Material) {
    forall k :: k in m ==> Unwrapped(keks, m[k], aadOf(k)).Ok?
  }

  /** Stopping anywhere and starting again comes to the same as one run. */
  lemma RotatingComposes(keks: map<int, Bytes>, current: int, aadOf: KeyId -> Bytes, a: Material, b: Material, c: Material)
    requires Rotating(keks, current, aadOf, a, b) && Rotating(keks, current, aadOf, b, c)
    ensures Rotating(keks, current, aadOf, a, c)
  {
    hide Unwrapped;
    forall k | k in a ensures SameSecret(keks, a[k], c[k], aadOf(k)) {
      assert SameSecret(keks, a[k], b[k], aadOf(k)) && SameSecret(keks, b[k], c[k], aadOf(k));
    }
  }

  /** After any part of a rotation every key still decrypts to what it did. */
  lemma RotatingKeepsSecrets(keks: map<int, Bytes>, current: int, aadOf: KeyId -> Bytes, a: Material, b: Material, k: KeyId)
    requires Rotating(keks, current, aadOf, a, b) && k in a
    ensures k in b && b[k].ciphertext == a[k].ciphertext && Opened(keks, b[k], aadOf(k)) == Opened(keks, a[k], aadOf(k))
  {
    SameSecretOpensSame(keks, a[k], b[k], aadOf(k));
  }

  /** What a run needs to succeed still holds wherever an earlier one stopped. */
  lemma ResumeCanSucceed(keks: map<int, Bytes>, current: int, aadOf: KeyId -> Bytes, a: Material, b: Material)
    requires Rotating(keks, current, aadOf, a, b) && current in keks
    ensures Unwrappable(keks, aadOf, a) ==> Unwrappable(keks, aadOf, b)
    ensures AllKnown(keks, a) ==> AllKnown(keks, b)
  {
    hide Unwrapped;
    if Unwrappable(keks, aadOf, a) {
      forall k | k in b ensures Unwrapped(keks, b[k], aadOf(k)).Ok? {
        assert SameSecret(keks, a[k], b[k], aadOf(k));
      }
    }
  }

  /** With every version known to the vault, not behind means current. */
  lemma NoneBehind(keks: map<int, Bytes>, current: int, aadOf: KeyId -> Bytes, before: Material, after: Material)
    requires Rotating(keks, current, aadOf, before, after) && forall v :: v in keks ==> v <= current
    requires forall k :: k in after ==> after[k].kekVersion >= current
    ensures AllKnown(keks, before) ==> AllCurrent(current, after)
  {
    hide SameSecret;
  }

  class KeyService {
    const vault: Vault
    const aadOf: KeyId -> Bytes
    var material: Material

    constructor (vault: Vault, aadOf: KeyId -> Bytes, material: Material)
      ensures this.vault == vault && this.aadOf == aadOf && this.material == material
    {
      this.vault, this.aadOf, this.material := vault, aadOf, material;
    }

    function Behind(current: int): set<KeyId>
      reads this
    {
      set k | k in material && material[k].kekVersion < current
    }

    /** Up to `limit` of the keys whose material is behind, lowest identifiers first. */
    method MaterialNeedingRewrap(current: int, limit: nat) returns (batch: seq<KeyId>)
      ensures forall k :: k in batch ==> k in Behind(current) && k in material && material[k].kekVersion < current
      ensures forall i, j :: 0 <= i < j < |batch| ==> batch[i] < batch[j]
      ensures |batch| <= limit && (|batch| < limit ==> forall k :: k in Behind(current) ==> k in batch)
      ensures forall k, m :: k in batch && m in Behind(current) && m !in batch ==> k < m
    {
      batch := [];
      var rest := Behind(current);
      while rest != {} && |batch| < limit
        invariant rest <= Behind(current) && |batch| <= limit
        invariant forall k :: k in Behind(current) <==> k in rest || k in batch
        invariant forall i, j :: 0 <= i < j < |batch| ==> batch[i] < batch[j]
        invariant forall k, m :: k in batch && m in rest ==> k < m
        decreases |rest|
      {
        var k := Lowest(rest);
        assert forall i :: 0 <= i < |batch| ==> batch[i] in batch;
        batch := batch + [k];
        rest := rest - {k};
      }
    }

    /**
     Rewraps everything behind the current version, a hundred keys at a time, until none is
     left. Whatever happens, what is stored has only moved forward; when all goes well no key is
     behind. It fails only when sealed or on a data key that does not unwrap.
     */
    method RotateKEK(nonces: KeyId -> nat) returns (r: Result<nat>)
      requires vault.Valid()
      modifies this`material
      ensures Rotating(vault.keks, vault.current, aadOf, old(material), material)
      ensures r.Ok? ==> forall k :: k in material ==> material[k].kekVersion >= vault.current
      ensures r.Ok? && AllKnown(vault.keks, old(material)) ==> AllCurrent(vault.current, material)
      ensures vault.current != 0 && Unwrappable(vault.keks, aadOf, old(material)) ==> r.Ok?
      ensures r.Ok? ==> r.value == |old(Behind(vault.current))|
    {
      hide Unwrapped;
      var current := vault.current;
      if current == 0 {
        return Err(ErrSealed);
      }
      var rewrapped := 0;
      while true
        invariant Rotating(vault.keks, current, aadOf, old(material), material)
        invariant rewrapped + |Behind(current)| == |old(Behind(vault.current))|
        decreases |Behind(current)|
      {
        var batch := MaterialNeedingRewrap(current, 100);
        if |batch| == 0 {
          break;
        }
        ghost var left := |Behind(current)|;
        var failed := RewrapBatch(batch, current, nonces);
        if failed.Some? {
          return Err(failed.value);
        }
        rewrapped := rewrapped + |batch|;
      }
      forall k | k in material ensures material[k].kekVersion >= current {
        assert k !in Behind(current);
      }
      NoneBehind(vault.keks, current, aadOf, old(material), material);
      return Ok(rewrapped);
    }

    method RewrapBatch(batch: seq<KeyId>, current: int, nonces: KeyId -> nat) returns (failed: Option<Error>)
      requires vault.Valid() && current == vault.current != 0
      requires forall k :: k in batch ==> k in Behind(current)
      requires forall i, j :: 0 <= i < j < |batch| ==> batch[i] < batch[j]
      modifies this`material
      ensures Rotating(vault.keks, current, aadOf, old(material), material)
      ensures failed.None? ==> |Behind(current)| + |batch| == |old(Behind(current))|
      ensures failed.Some? ==> !Unwrappable(vault.keks, aadOf, old(material))
    {
      hide Unwrapped;
      failed := None;
      for i := 0 to |batch|
        invariant Rotating(vault.keks, current, aadOf, old(material), material)
        invariant |Behind(current)| + i == |old(Behind(current))|
        invariant forall j :: i <= j < |batch| ==> batch[j] in Behind(current) && material[batch[j]] == old(material)[batch[j]]
      {
        var k := batch[i];
        var sealed := material[k];
        var wrapped := vault.Rewrap(sealed, aadOf(k), nonces(k));
        if wrapped.Err? {
          assert k in old(material) && Unwrapped(vault.keks, old(material)[k], aadOf(k)).Err?;
          return Some(wrapped.error);
        }
        ghost var before := Behind(current);
        material := material[k := wrapped.value];
        assert Behind(current) == before - {k};
      }
    }
  }

  method Lowest(s: set<KeyId>) returns (k: KeyId)
    requires s != {}
    ensures k in s && forall m :: m in s ==> k <= m
  {
    k :| k in s;
    var rest := s - {k};
    while rest != {}
      invariant rest <= s && k in s && forall m :: m in s ==> m in rest || k <= m
      decreases |rest|
    {
      var m :| m in rest;
      rest := rest - {m};
      if m < k {
        k := m;
      }
    }
  }
}
