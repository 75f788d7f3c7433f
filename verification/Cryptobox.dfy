/** The envelope of server/src/utils/cryptobox.ts: its byte layout, packing and unpacking, over an
    ideal authenticated cipher. */
module Cryptobox {
  import opened Prelude

  newtype byte = x: int | 0 <= x < 256

  type Bytes = seq<byte>

  const VERSION: byte := 1
  const KEK_IV_LEN := 12
  const KEK_TAG_LEN := 16
  const DEK_LEN := 32
  const DEK_IV_LEN := 12
  const DEK_TAG_LEN := 16
  const HEADER_LEN := 1 + KEK_IV_LEN + KEK_TAG_LEN + DEK_LEN + DEK_IV_LEN + DEK_TAG_LEN + 2
  const MAX_AAD := 65535

  datatype Error = BadKek | AadTooLong | TooShort | UnsupportedVersion | AadMismatch | NotAuthentic

  datatype Result<T> = Ok(value: T) | Err(error: Error)

  // ---------------------------------------------------------------- the layout

  /** The eight parts of an envelope; the length of the AAD is implied. */
  datatype Parts = Parts(
    version: byte,
    kekIv: Bytes,
    kekTag: Bytes,
    wrappedDek: Bytes,
    dekIv: Bytes,
    dekTag: Bytes,
    aad: Bytes,
    ciphertext: Bytes)

  predicate FixedSizes(p: Parts) {
    |p.kekIv| == KEK_IV_LEN && |p.kekTag| == KEK_TAG_LEN && |p.wrappedDek| == DEK_LEN
    && |p.dekIv| == DEK_IV_LEN && |p.dekTag| == DEK_TAG_LEN && |p.aad| <= MAX_AAD
  }

  function WriteUInt16BE(n: nat): (b: Bytes)
    requires n <= MAX_AAD
    ensures |b| == 2
  {
    [(n / 256) as byte, (n % 256) as byte]
  }

  function ReadUInt16BE(b: Bytes, offset: nat): (n: nat)
    requires offset + 2 <= |b|
    ensures n <= MAX_AAD
  {
    b[offset] as int * 256 + b[offset + 1] as int
  }

  function Pack(p: Parts): Bytes
    requires |p.aad| <= MAX_AAD
  {
    [p.version] + p.kekIv + p.kekTag + p.wrappedDek + p.dekIv + p.dekTag + WriteUInt16BE(|p.aad|) + p.aad + p.ciphertext
  }

  /** `Buffer.subarray`: bounds beyond the end are cut to the end. */
  function Subarray(b: Bytes, start: nat, end: nat): Bytes
    requires start <= end
  {
    b[Min(start, |b|)..Min(end, |b|)]
  }

  const AAD_LEN_AT := 1 + KEK_IV_LEN + KEK_TAG_LEN + DEK_LEN + DEK_IV_LEN + DEK_TAG_LEN

  /** The AAD length an envelope declares. */
  function DeclaredAad(env: Bytes): nat
    requires |env| >= HEADER_LEN
  {
    ReadUInt16BE(env, AAD_LEN_AT)
  }

  function Unpack(env: Bytes): Parts
    requires |env| >= HEADER_LEN
  {
    Parts(env[0], env[1..13], env[13..29], env[29..61], env[61..73], env[73..89],
          Subarray(env, HEADER_LEN, HEADER_LEN + DeclaredAad(env)),
          Subarray(env, HEADER_LEN + DeclaredAad(env), Max(|env|, HEADER_LEN + DeclaredAad(env))))
  }

  /** Unpacking a packed envelope recovers all eight parts. */
  lemma UnpackPack(p: Parts)
    requires FixedSizes(p)
    ensures |Pack(p)| >= HEADER_LEN && Unpack(Pack(p)) == p
  {
  }

  /** Conversely an envelope is what packing its parts gives if and only if it is long enough to
      hold the AAD it declares. */
  lemma PackUnpackIff(env: Bytes)
    requires |env| >= HEADER_LEN
    ensures Pack(Unpack(env)) == env <==> HEADER_LEN + DeclaredAad(env) <= |env|
  {
  }

  /** An envelope with another AAD length declared in its header. */
  function Declaring(env: Bytes, n: nat): (f: Bytes)
    requires |env| >= HEADER_LEN && n <= MAX_AAD
    ensures |f| == |env| && DeclaredAad(f) == n
  {
    env[..AAD_LEN_AT] + WriteUInt16BE(n) + env[HEADER_LEN..]
  }

  /** What an envelope is made of, cut at the AAD length. */
  lemma Fields(env: Bytes)
    requires |env| >= HEADER_LEN
    ensures var p := Unpack(env);
      && env == env[..AAD_LEN_AT] + WriteUInt16BE(DeclaredAad(env)) + env[HEADER_LEN..]
      && env[..AAD_LEN_AT] == [p.version] + p.kekIv + p.kekTag + p.wrappedDek + p.dekIv + p.dekTag
      && env[HEADER_LEN..] == p.aad + p.ciphertext
  {
  }

  /** Two envelopes have the same parts if and only if they are equal, or differ in the AAD length they
      declare alone while neither holds anything beyond that length. */
  lemma {:induction false} SamePartsIff(env: Bytes, other: Bytes)
    requires |env| >= HEADER_LEN && |other| >= HEADER_LEN
    ensures Unpack(env) == Unpack(other)
       <==> env == other
            || (other == Declaring(env, DeclaredAad(other))
                && |env| <= HEADER_LEN + DeclaredAad(env) && |other| <= HEADER_LEN + DeclaredAad(other))
  {
    Fields(env);
    Fields(other);
    PackUnpackIff(env);
    PackUnpackIff(other);
  }

  // ---------------------------------------------------------------- the cipher

  datatype Sealed = Sealed(ciphertext: Bytes, tag: Bytes)

  /** Authenticated encryption as the envelope uses it: key, IV and AAD, then message or ciphertext. */
  datatype Aead = Aead(
    seal: (Bytes, Bytes, Bytes, Bytes) -> Sealed,
    open: (Bytes, Bytes, Bytes, Sealed) -> Option<Bytes>)

  /** Opening what was sealed gives the message back; ciphertexts are as long as their messages and
      tags are sixteen bytes. */
  ghost predicate Ideal(a: Aead) {
    forall key, iv, aad, m ::
      var s := a.seal(key, iv, aad, m);
      a.open(key, iv, aad, s) == Some(m) && |s.ciphertext| == |m| && |s.tag| == 16
  }

  /** Fresh random bytes, of the lengths asked for. */
  datatype Randomness = Randomness(dek: Bytes, dekIv: Bytes, kekIv: Bytes)

  predicate RightLengths(r: Randomness) {
    |r.dek| == DEK_LEN && |r.dekIv| == DEK_IV_LEN && |r.kekIv| == KEK_IV_LEN
  }

  function Encrypt(a: Aead, kek: Bytes, plaintext: Bytes, aad: Bytes, r: Randomness): Result<Bytes> {
    if |kek| != DEK_LEN then Err(BadKek)
    else if |aad| > MAX_AAD then Err(AadTooLong)
    else
      var payload := a.seal(r.dek, r.dekIv, aad, plaintext);
      var wrapped := a.seal(kek, r.kekIv, aad, r.dek);
      Ok(Pack(Parts(VERSION, r.kekIv, wrapped.tag, wrapped.ciphertext, r.dekIv, payload.tag, aad, payload.ciphertext)))
  }

  /** Opening the parts once the envelope has been accepted. */
  function OpenParts(a: Aead, kek: Bytes, aad: Bytes, p: Parts): Result<Bytes> {
    match a.open(kek, p.kekIv, aad, Sealed(p.wrappedDek, p.kekTag))
    case None => Err(NotAuthentic)
    case Some(dek) =>
      match a.open(dek, p.dekIv, aad, Sealed(p.ciphertext, p.dekTag))
      case None => Err(NotAuthentic)
      case Some(plaintext) => Ok(plaintext)
  }

  function DecryptSpec(a: Aead, kek: Bytes, env: Bytes, aad: Bytes): Result<Bytes> {
    if |kek| != DEK_LEN then Err(BadKek)
    else if |env| < HEADER_LEN then Err(TooShort)
    else if env[0] != VERSION then Err(UnsupportedVersion)
    else if Unpack(env).aad != aad then Err(AadMismatch)
    else OpenParts(a, kek, aad, Unpack(env))
  }

  /** The walk over the buffer. */
  method Decrypt(a: Aead, kek: Bytes, env: Bytes, aad: Bytes) returns (r: Result<Bytes>)
    ensures r == DecryptSpec(a, kek, env, aad)
  {
    if |kek| != DEK_LEN { return Err(BadKek); }
    if |env| < HEADER_LEN { return Err(TooShort); }
    if env[0] != VERSION { return Err(UnsupportedVersion); }
    var off := 1;
    var kekIv := Subarray(env, off, off + KEK_IV_LEN);
    off := off + KEK_IV_LEN;
    var kekTag := Subarray(env, off, off + KEK_TAG_LEN);
    off := off + KEK_TAG_LEN;
    var wrappedDek := Subarray(env, off, off + DEK_LEN);
    off := off + DEK_LEN;
    var dekIv := Subarray(env, off, off + DEK_IV_LEN);
    off := off + DEK_IV_LEN;
    var dekTag := Subarray(env, off, off + DEK_TAG_LEN);
    off := off + DEK_TAG_LEN;
    var aadLen := ReadUInt16BE(env, off);
    off := off + 2;
    var envAad := Subarray(env, off, off + aadLen);
    off := off + aadLen;
    var ciphertext := Subarray(env, off, Max(|env|, off));
    assert Unpack(env) == Parts(env[0], kekIv, kekTag, wrappedDek, dekIv, dekTag, envAad, ciphertext);
    if |envAad| != |aad| || envAad != aad { return Err(AadMismatch); }
    var dek := a.open(kek, kekIv, aad, Sealed(wrappedDek, kekTag));
    if dek.None? { return Err(NotAuthentic); }
    var plaintext := a.open(dek.value, dekIv, aad, Sealed(ciphertext, dekTag));
    if plaintext.None? { return Err(NotAuthentic); }
    r := Ok(plaintext.value);
  }

  // ---------------------------------------------------------------- what the box guarantees

  lemma EncryptedParts(a: Aead, kek: Bytes, plaintext: Bytes, aad: Bytes, r: Randomness)
    requires Ideal(a) && RightLengths(r) && |kek| == DEK_LEN && |aad| <= MAX_AAD
    ensures var payload, wrapped := a.seal(r.dek, r.dekIv, aad, plaintext), a.seal(kek, r.kekIv, aad, r.dek);
      var p := Parts(VERSION, r.kekIv, wrapped.tag, wrapped.ciphertext, r.dekIv, payload.tag, aad, payload.ciphertext);
      && FixedSizes(p) && Encrypt(a, kek, plaintext, aad, r) == Ok(Pack(p))
      && |Pack(p)| >= HEADER_LEN && Unpack(Pack(p)) == p
  {
  }

  /** The envelope byte by byte, at the offsets its format documents. */
  lemma {:induction false} EnvelopeLayout(a: Aead, kek: Bytes, plaintext: Bytes, aad: Bytes, r: Randomness)
    requires Ideal(a) && RightLengths(r) && |kek| == 32 && |aad| <= 65535
    ensures Encrypt(a, kek, plaintext, aad, r).Ok?
    ensures var env := Encrypt(a, kek, plaintext, aad, r).value;
      var payload, wrapped := a.seal(r.dek, r.dekIv, aad, plaintext), a.seal(kek, r.kekIv, aad, r.dek);
      && |env| == 91 + |aad| + |plaintext| && env[0] == 1
      && env[1..13] == r.kekIv && env[13..29] == wrapped.tag && env[29..61] == wrapped.ciphertext
      && env[61..73] == r.dekIv && env[73..89] == payload.tag
      && env[89] as int * 256 + env[90] as int == |aad|
      && env[91..91 + |aad|] == aad && env[91 + |aad|..] == payload.ciphertext
  {
    EncryptedParts(a, kek, plaintext, aad, r);
    Fields(Encrypt(a, kek, plaintext, aad, r).value);
  }

  /** Each error of decryption, in exactly its case. */
  lemma ErrorsInTheirCases(a: Aead, kek: Bytes, env: Bytes, aad: Bytes)
    ensures var d := DecryptSpec(a, kek, env, aad);
      && (d == Err(BadKek) <==> |kek| != 32)
      && (d == Err(TooShort) <==> |kek| == 32 && |env| < 91)
      && (d == Err(UnsupportedVersion) <==> |kek| == 32 && |env| >= 91 && env[0] != 1)
      && (d == Err(AadMismatch) <==>
            |kek| == 32 && |env| >= 91 && env[0] == 1
            && aad != env[91..Min(|env|, 91 + env[89] as int * 256 + env[90] as int)])
  {
  }

  /** Encryption succeeds exactly when the key has the right size and the AAD fits its length field,
      and decryption under the same AAD gives the payload back. */
  lemma {:induction false} DecryptInvertsEncrypt(a: Aead, kek: Bytes, plaintext: Bytes, aad: Bytes, r: Randomness)
    requires Ideal(a) && RightLengths(r)
    ensures Encrypt(a, kek, plaintext, aad, r).Ok? <==> |kek| == DEK_LEN && |aad| <= MAX_AAD
    ensures Encrypt(a, kek, plaintext, aad, r).Ok? ==>
              DecryptSpec(a, kek, Encrypt(a, kek, plaintext, aad, r).value, aad) == Ok(plaintext)
  {
    if |kek| == DEK_LEN && |aad| <= MAX_AAD {
      EncryptedParts(a, kek, plaintext, aad, r);
      var payload, wrapped := a.seal(r.dek, r.dekIv, aad, plaintext), a.seal(kek, r.kekIv, aad, r.dek);
      assert a.open(kek, r.kekIv, aad, wrapped) == Some(r.dek);
      assert a.open(r.dek, r.dekIv, aad, payload) == Some(plaintext);
    }
  }

  /** Only what was sealed opens. */
  ghost predicate Authentic(a: Aead) {
    forall key, iv, aad, s :: a.open(key, iv, aad, s).Some? ==> s == a.seal(key, iv, aad, a.open(key, iv, aad, s).value)
  }

  /** The random bytes that an accepted envelope must have been made with. */
  lemma {:induction false} AcceptedParts(a: Aead, kek: Bytes, env: Bytes, aad: Bytes) returns (r: Randomness)
    requires Ideal(a) && Authentic(a) && DecryptSpec(a, kek, env, aad).Ok?
    ensures RightLengths(r) && Encrypt(a, kek, DecryptSpec(a, kek, env, aad).value, aad, r) == Ok(Pack(Unpack(env)))
  {
    var p := Unpack(env);
    var dek := a.open(kek, p.kekIv, aad, Sealed(p.wrappedDek, p.kekTag)).value;
    r := Randomness(dek, p.dekIv, p.kekIv);
    assert Sealed(p.wrappedDek, p.kekTag) == a.seal(kek, p.kekIv, aad, dek);
    assert Sealed(p.ciphertext, p.dekTag) == a.seal(dek, p.dekIv, aad, DecryptSpec(a, kek, env, aad).value);
  }

  /** Under an authentic cipher an accepted envelope was made by encrypting what it decrypts to, if and
      only if it is long enough to hold the AAD it declares. */
  lemma {:induction false} AcceptedIsEncryptedIff(a: Aead, kek: Bytes, env: Bytes, aad: Bytes)
    requires Ideal(a) && Authentic(a) && DecryptSpec(a, kek, env, aad).Ok?
    ensures HEADER_LEN + DeclaredAad(env) <= |env|
       <==> exists r :: RightLengths(r) && Encrypt(a, kek, DecryptSpec(a, kek, env, aad).value, aad, r) == Ok(env)
  {
    var plaintext := DecryptSpec(a, kek, env, aad).value;
    var made := AcceptedParts(a, kek, env, aad);
    PackUnpackIff(env);
    if r :| RightLengths(r) && Encrypt(a, kek, plaintext, aad, r) == Ok(env) {
      EncryptedParts(a, kek, plaintext, aad, r);
    }
  }

  /** Authenticated encryption that hides nothing: it meets both requirements on a cipher. */
  function PlainCipher(): Aead {
    var tag := seq(16, _ => 0 as byte);
    Aead((_, _, _, m) => Sealed(m, tag),
         (_, _, _, s: Sealed) => if s.tag == tag then Some(s.ciphertext) else None)
  }

  lemma PlainCipherIsIdeal()
    ensures Ideal(PlainCipher()) && Authentic(PlainCipher())
  {
  }

  /** Both sides occur. An empty payload's envelope has no ciphertext, so one that declares a longer AAD
      has the same parts: it is read as the same empty payload and yet is no encryption of it. */
  lemma {:induction false} OverdeclaredIsNotEncrypted(a: Aead, kek: Bytes, aad: Bytes, r: Randomness, n: nat)
    requires Ideal(a) && Authentic(a) && RightLengths(r) && |kek| == DEK_LEN && |aad| < n <= MAX_AAD
    ensures Encrypt(a, kek, [], aad, r).Ok? && |Encrypt(a, kek, [], aad, r).value| == HEADER_LEN + |aad|
    ensures var env := Declaring(Encrypt(a, kek, [], aad, r).value, n);
      && DecryptSpec(a, kek, env, aad) == Ok([])
      && !exists r' :: RightLengths(r') && Encrypt(a, kek, [], aad, r') == Ok(env)
  {
    EncryptedParts(a, kek, [], aad, r);
    DecryptInvertsEncrypt(a, kek, [], aad, r);
    var made := Encrypt(a, kek, [], aad, r).value;
    SamePartsIff(made, Declaring(made, n));
    AcceptedIsEncryptedIff(a, kek, Declaring(made, n), aad);
  }

  /** Any other AAD is turned away by the comparison alone: the answer is the same whatever cipher
      would have been asked to open the parts. */
  lemma OtherAadRejected(a: Aead, kek: Bytes, plaintext: Bytes, aad: Bytes, r: Randomness, other: Bytes, opener: Aead)
    requires Ideal(a) && RightLengths(r) && Encrypt(a, kek, plaintext, aad, r).Ok? && other != aad
    ensures DecryptSpec(opener, kek, Encrypt(a, kek, plaintext, aad, r).value, other) == Err(AadMismatch)
  {
  }

  /** An envelope cut short anywhere before its ciphertext is rejected before any cipher is used. */
  lemma CutEnvelopeRejected(a: Aead, kek: Bytes, plaintext: Bytes, aad: Bytes, r: Randomness, k: nat, opener: Aead)
    requires Ideal(a) && RightLengths(r) && Encrypt(a, kek, plaintext, aad, r).Ok?
    requires k < HEADER_LEN + |aad|
    ensures var env := Encrypt(a, kek, plaintext, aad, r).value;
      && k <= |env|
      && DecryptSpec(opener, kek, env[..k], aad) == Err(if k < HEADER_LEN then TooShort else AadMismatch)
  {
  }
}
