// The envelope around an encrypted TOTP seed and the key ring that opens it
// (src/auth_factors/crypto.rs, src/config/parsing.rs).
//
// An envelope is "CX", a version byte, the length of the key id, the key id, a 12-byte nonce, and
// the sealed seed with its 16-byte tag. Anything that does not start with "CX" is a legacy
// ciphertext: nonce and sealed seed only, opened by trying every key of the ring.

module SecretEnvelope {
  import opened Prelude

  // A 32-byte AES key, by identity.
  type Key = nat

  // AES-256-GCM and UTF-8 validation, used through the laws below and nothing else.
  datatype Primitives = Primitives(
    seal: (Key, Bytes, Bytes) -> Bytes,
    open: (Key, Bytes, Bytes) -> Option<Bytes>,
    utf8: Bytes -> bool)

  datatype KeyRing = KeyRing(active: Bytes, keys: seq<(Bytes, Key)>)

  datatype Opened =
    | Plain(secret: Bytes, needsReencryption: bool)
    | Malformed
    | Authentication
    | UnknownKeyId

  datatype KeyState = Current | Rotatable | Legacy | Unavailable

  const NONCE_LENGTH: nat := 12
  const TAG_LENGTH: nat := 16
  const ENVELOPE_VERSION: Byte := 1
  const MAGIC: Bytes := [0x43, 0x58]
  const PREFIX_LENGTH: nat := 4
  const MAX_KID_LENGTH: nat := 64

  predicate Ascii(b: Bytes) {
    forall i :: 0 <= i < |b| ==> b[i] < 128
  }

  // Opening inverts sealing under the same key, adds one tag, and fails under any other key in use.
  ghost predicate Lawful(p: Primitives, inUse: set<Key>) {
    && (forall k, n, s :: |p.seal(k, n, s)| == |s| + TAG_LENGTH && p.open(k, n, p.seal(k, n, s)) == Some(s))
    && (forall k, k', n, s :: k in inUse && k' in inUse && k != k' ==> p.open(k', n, p.seal(k, n, s)) == None)
    && (forall k, n, c :: p.open(k, n, c).Some? ==> |p.open(k, n, c).value| + TAG_LENGTH == |c|)
    && (forall b :: Ascii(b) ==> p.utf8(b))
  }

  function KeysOf(r: KeyRing): set<Key> {
    set i | 0 <= i < |r.keys| :: r.keys[i].1
  }

  function Find(keys: seq<(Bytes, Key)>, kid: Bytes): (k: Option<Key>)
    ensures k.Some? <==> exists i :: 0 <= i < |keys| && keys[i].0 == kid
    ensures k.Some? ==> (kid, k.value) in keys
  {
    if keys == [] then None
    else if keys[0].0 == kid then assert keys[0] == (kid, keys[0].1); Some(keys[0].1)
    else Find(keys[1..], kid)
  }

  // `from_entries`: non-empty ids of at most 64 bytes, no id twice, and the active id among them.
  predicate ValidRing(r: KeyRing) {
    && (forall i :: 0 <= i < |r.keys| ==> 0 < |r.keys[i].0| <= MAX_KID_LENGTH)
    && (forall i, j :: 0 <= i < j < |r.keys| ==> r.keys[i].0 != r.keys[j].0)
    && Find(r.keys, r.active).Some?
  }

  predicate StartsWithMagic(e: Bytes) {
    MAGIC <= e
  }

  predicate IsLegacy(e: Bytes) {
    |e| >= NONCE_LENGTH + TAG_LENGTH && !StartsWithMagic(e)
  }

  // The key id and the offset of the nonce, read from the header alone.
  function Metadata(p: Primitives, e: Bytes): (r: Option<(Bytes, nat)>)
    ensures r.Some? ==> r.value.1 + NONCE_LENGTH + TAG_LENGTH <= |e|
  {
    if |e| < PREFIX_LENGTH || !StartsWithMagic(e) || e[2] != ENVELOPE_VERSION then None
    else if e[3] == 0 || e[3] > MAX_KID_LENGTH then None
    else
      var kidEnd := PREFIX_LENGTH + e[3];
      if |e| < kidEnd + NONCE_LENGTH + TAG_LENGTH then None
      else if !p.utf8(e[PREFIX_LENGTH..kidEnd]) then None
      else Some((e[PREFIX_LENGTH..kidEnd], kidEnd))
  }

  function OpenAt(p: Primitives, k: Key, e: Bytes, offset: nat): Option<Bytes>
    requires offset + NONCE_LENGTH + TAG_LENGTH <= |e|
  {
    p.open(k, e[offset..offset + NONCE_LENGTH], e[offset + NONCE_LENGTH..])
  }

  // Key ids are ASCII here although a ring admits any UTF-8 id: sealing under such an id fails.
  function Encrypt(p: Primitives, r: KeyRing, nonce: Bytes, secret: Bytes): Option<Bytes>
    requires ValidRing(r) && |nonce| == NONCE_LENGTH
  {
    if !Ascii(r.active) then None
    else
      assert |r.active| <= MAX_KID_LENGTH;
      Some(MAGIC + [ENVELOPE_VERSION, |r.active|] + r.active + nonce + p.seal(Find(r.keys, r.active).value, nonce, secret))
  }

  // The first candidate key that opens the payload.
  function FirstOpening(p: Primitives, keys: seq<(Bytes, Key)>, e: Bytes, offset: nat): Option<Bytes>
    requires offset + NONCE_LENGTH + TAG_LENGTH <= |e|
  {
    if keys == [] then None
    else if OpenAt(p, keys[0].1, e, offset).Some? then OpenAt(p, keys[0].1, e, offset)
    else FirstOpening(p, keys[1..], e, offset)
  }

  function Decrypt(p: Primitives, r: KeyRing, e: Bytes): Opened {
    if StartsWithMagic(e) then
      match Metadata(p, e)
      case None => Malformed
      case Some((kid, offset)) =>
        match Find(r.keys, kid)
        case None => UnknownKeyId
        case Some(key) =>
          match OpenAt(p, key, e, offset)
          case None => Authentication
          case Some(secret) => Plain(secret, kid != r.active)
    else if IsLegacy(e) then
      match FirstOpening(p, r.keys, e, 0)
      case None => Authentication
      case Some(secret) => Plain(secret, true)
    else Malformed
  }

  function Classify(p: Primitives, r: KeyRing, e: Bytes): KeyState {
    if !StartsWithMagic(e) then
      if IsLegacy(e) then Legacy else Unavailable
    else
      match Metadata(p, e)
      case None => Unavailable
      case Some((kid, _)) =>
        if Find(r.keys, kid).None? then Unavailable
        else if kid == r.active then Current
        else Rotatable
  }

  // The candidate loop of `decrypt_totp_secret_with_ring`.
  method DecryptWithRing(p: Primitives, r: KeyRing, e: Bytes) returns (outcome: Opened)
    ensures outcome == Decrypt(p, r, e)
  {
    var offset := 0;
    var candidates := r.keys;
    var stored := None;
    if StartsWithMagic(e) {
      match Metadata(p, e) {
        case None => return Malformed;
        case Some((kid, at)) =>
          match Find(r.keys, kid) {
            case None => return UnknownKeyId;
            case Some(key) => stored, offset, candidates := Some(kid), at, [(kid, key)];
          }
      }
    } else if !IsLegacy(e) {
      return Malformed;
    }
    assert Decrypt(p, r, e) ==
      match FirstOpening(p, candidates, e, offset)
      case None => Authentication
      case Some(secret) => Plain(secret, stored != Some(r.active));
    var i := 0;
    while i < |candidates|
      invariant 0 <= i <= |candidates|
      invariant FirstOpening(p, candidates, e, offset) == FirstOpening(p, candidates[i..], e, offset)
    {
      var plain := OpenAt(p, candidates[i].1, e, offset);
      if plain.Some? {
        return Plain(plain.value, stored != Some(r.active));
      }
      i := i + 1;
    }
    return Authentication;
  }

  // The header-only verdict and the real decryption agree on every byte string and every ring.
  lemma ClassifierAgrees(p: Primitives, r: KeyRing, e: Bytes)
    ensures var o := Decrypt(p, r, e);
            && (Classify(p, r, e) == Unavailable <==> o.Malformed? || o.UnknownKeyId?)
            && (Classify(p, r, e) == Current ==> o.Authentication? || (o.Plain? && !o.needsReencryption))
            && (Classify(p, r, e) in {Rotatable, Legacy} ==> o.Authentication? || (o.Plain? && o.needsReencryption))
  {
    assert Decrypt(p, r, e).Plain? ==> Classify(p, r, e) != Unavailable;
  }

  lemma SealedHeader(p: Primitives, r: KeyRing, nonce: Bytes, secret: Bytes)
    requires ValidRing(r) && |nonce| == NONCE_LENGTH && Lawful(p, KeysOf(r)) && Ascii(r.active)
    ensures var e := Encrypt(p, r, nonce, secret).value;
            && StartsWithMagic(e)
            && Metadata(p, e) == Some((r.active, PREFIX_LENGTH + |r.active|))
            && (forall k :: OpenAt(p, k, e, PREFIX_LENGTH + |r.active|) ==
                  p.open(k, nonce, p.seal(Find(r.keys, r.active).value, nonce, secret)))
  {
    var body := p.seal(Find(r.keys, r.active).value, nonce, secret);
    var e := Encrypt(p, r, nonce, secret).value;
    var kidEnd := PREFIX_LENGTH + |r.active|;
    assert e[PREFIX_LENGTH..kidEnd] == r.active;
    assert e[kidEnd..kidEnd + NONCE_LENGTH] == nonce;
    assert e[kidEnd + NONCE_LENGTH..] == body;
  }

  // What one ring seals, every ring that still maps the key id to the same key opens, and it asks
  // for re-encryption exactly when that id is no longer the active one.
  lemma RotationPreservesSecret(p: Primitives, sealing: KeyRing, reading: KeyRing, nonce: Bytes, secret: Bytes)
    requires ValidRing(sealing) && |nonce| == NONCE_LENGTH && Lawful(p, KeysOf(sealing)) && Ascii(sealing.active)
    requires Find(reading.keys, sealing.active) == Find(sealing.keys, sealing.active)
    ensures Decrypt(p, reading, Encrypt(p, sealing, nonce, secret).value) ==
            Plain(secret, sealing.active != reading.active)
  {
    SealedHeader(p, sealing, nonce, secret);
  }

  // A retired key id is reported as such, whatever other keys the ring holds.
  lemma RetiredKeyIsNeverRetried(p: Primitives, sealing: KeyRing, reading: KeyRing, nonce: Bytes, secret: Bytes)
    requires ValidRing(sealing) && |nonce| == NONCE_LENGTH && Lawful(p, KeysOf(sealing)) && Ascii(sealing.active)
    requires Find(reading.keys, sealing.active) == None
    ensures Decrypt(p, reading, Encrypt(p, sealing, nonce, secret).value) == UnknownKeyId
  {
    SealedHeader(p, sealing, nonce, secret);
  }

  lemma {:induction false} OnlyTheSealingKeyOpens(p: Primitives, keys: seq<(Bytes, Key)>, all: set<Key>, k: Key, e: Bytes, secret: Bytes)
    requires Lawful(p, all) && k in all && |e| >= NONCE_LENGTH + TAG_LENGTH
    requires forall i :: 0 <= i < |keys| ==> keys[i].1 in all
    requires e[NONCE_LENGTH..] == p.seal(k, e[..NONCE_LENGTH], secret)
    ensures FirstOpening(p, keys, e, 0) ==
            if exists i :: 0 <= i < |keys| && keys[i].1 == k then Some(secret) else None
  {
    assert e[0..0 + NONCE_LENGTH] == e[..NONCE_LENGTH];
    if keys != [] && keys[0].1 != k {
      OnlyTheSealingKeyOpens(p, keys[1..], all, k, e, secret);
      assert forall i :: 0 < i < |keys| ==> keys[i] == keys[1..][i - 1];
      if i :| 0 <= i < |keys| && keys[i].1 == k {
        assert keys[1..][i - 1].1 == k;
      }
    }
  }

  // A legacy ciphertext made with a ring key is readable exactly when its random nonce does not
  // happen to spell the envelope magic; otherwise its own bytes are taken for a header.
  lemma LegacyReadableUnlessNonceSpellsMagic(p: Primitives, r: KeyRing, k: Key, nonce: Bytes, secret: Bytes)
    requires Lawful(p, KeysOf(r)) && k in KeysOf(r) && |nonce| == NONCE_LENGTH
    ensures Decrypt(p, r, nonce + p.seal(k, nonce, secret)) == Plain(secret, true) <==> !StartsWithMagic(nonce)
  {
    var e := nonce + p.seal(k, nonce, secret);
    assert e[..NONCE_LENGTH] == nonce && e[NONCE_LENGTH..] == p.seal(k, nonce, secret);
    assert StartsWithMagic(e) <==> StartsWithMagic(nonce) by {
      assert e[..2] == nonce[..2];
    }
    if !StartsWithMagic(e) {
      OnlyTheSealingKeyOpens(p, r.keys, KeysOf(r), k, e, secret);
    }
  }
}
