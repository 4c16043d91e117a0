/**
 Hybrid envelopes (genesis-core/src/envelope.rs) and the local KMS built on them
 (genesis-core/src/kms/local.rs).  The cryptographic primitives are parameters: a `Suite` of
 functions, of which only the algebraic laws in `Lawful` are used.
 */
module Hybrid {
  import opened Base
  import opened Codec

  /** The primitives; a `nat` argument stands for the randomness a primitive draws. */
  datatype Suite = Suite(
    ageRecipient: Bytes -> Option<string>,
    ageEncrypt: (string, Bytes, nat) -> Option<Bytes>,
    ageDecrypt: (Bytes, Bytes) -> Option<Bytes>,
    kemPublic: Bytes -> Option<Bytes>,
    kemEncapsulate: (Bytes, nat) -> Option<(Bytes, Bytes)>,
    kemDecapsulate: (Bytes, Bytes) -> Option<Bytes>,
    combine: (Bytes, Bytes) -> Option<Bytes>,
    aeadSeal: (Bytes, Bytes, Bytes) -> Option<Bytes>,
    aeadOpen: (Bytes, Bytes, Bytes) -> Option<Bytes>,
    digest: Bytes -> Bytes,
    verifyingKey: Bytes -> Option<Bytes>,
    sign: (Bytes, Bytes) -> Option<Bytes>,
    verify: (Bytes, Bytes, Bytes) -> Option<bool>)
  {
    ghost predicate AgeLaw() {
      forall id: Bytes, rcpt: string, p: Bytes, r: nat ::
        ageRecipient(id) == Some(rcpt) && ageEncrypt(rcpt, p, r).Some?
        ==> ageDecrypt(id, ageEncrypt(rcpt, p, r).value) == Some(p)
    }

    ghost predicate KemLaw() {
      forall sk: Bytes, pk: Bytes, r: nat ::
        kemPublic(sk) == Some(pk) && kemEncapsulate(pk, r).Some?
        ==> kemDecapsulate(sk, kemEncapsulate(pk, r).value.0) == Some(kemEncapsulate(pk, r).value.1)
    }

    ghost predicate AeadLaw() {
      forall k: Bytes, n: Bytes, p: Bytes ::
        aeadSeal(k, n, p).Some? ==> aeadOpen(k, n, aeadSeal(k, n, p).value) == Some(p)
    }

    ghost predicate SignLaw() {
      forall sk: Bytes, vk: Bytes, d: Bytes ::
        verifyingKey(sk) == Some(vk) && sign(sk, d).Some? ==> verify(vk, d, sign(sk, d).value) == Some(true)
    }

    ghost predicate Lawful() {
      AgeLaw() && KemLaw() && AeadLaw() && SignLaw()
    }

    /** No signature is good for two messages: it is bound to the digest, and the digest to the bytes. */
    ghost predicate Binding() {
      && (forall vk: Bytes, sig: Bytes, d: Bytes, d': Bytes ::
            verify(vk, d, sig) == Some(true) && verify(vk, d', sig) == Some(true) ==> d == d')
      && (forall a: Bytes, b: Bytes :: digest(a) == digest(b) ==> a == b)
    }

    /** Sizes: a 16-byte tag on the ciphertext, and every other part below 4 GiB. */
    ghost predicate Sized() {
      && (forall rcpt: string, p: Bytes, r: nat ::
            |p| == 32 && ageEncrypt(rcpt, p, r).Some? ==> |ageEncrypt(rcpt, p, r).value| < TWO_32)
      && (forall pk: Bytes, r: nat ::
            kemEncapsulate(pk, r).Some? ==> |kemEncapsulate(pk, r).value.0| < TWO_32)
      && (forall k: Bytes, n: Bytes, p: Bytes ::
            aeadSeal(k, n, p).Some? ==> |aeadSeal(k, n, p).value| == |p| + 16)
      && (forall sk: Bytes, d: Bytes :: sign(sk, d).Some? ==> |sign(sk, d).value| < TWO_32)
      && (forall sk: Bytes :: verifyingKey(sk).Some? ==> |verifyingKey(sk).value| < TWO_32)
    }
  }

  datatype Error =
    | RngFailed
    | AgeEncryptFailed
    | AgeDecryptFailed
    | PqEncapsulateFailed
    | PqDecapsulateFailed
    | HybridCombineFailed
    | PqSignFailed
    | PqVerifyFailed
    | EnvelopeSignatureInvalid
    | EnvelopeParseFailed
    | AeadFailed
    | ReadFailed
    | WriteFailed
    | CiphertextTooShort
    | WrongKeyLength

  /** What one `seal` draws from the operating system, where either draw may fail. */
  datatype Draws = Draws(secret: Option<Bytes>, nonce: Option<Bytes>, age: nat, kem: nat) {
    ghost predicate Valid() {
      && (secret.Some? ==> |secret.value| == 32)
      && (nonce.Some? ==> |nonce.value| == 12)
    }
  }

  datatype Recipient = Recipient(age: string, mlkem: Bytes)

  datatype Identity = Identity(age: Bytes, mlkem: Bytes)

  ghost predicate Matches(s: Suite, id: Identity, to: Recipient) {
    s.ageRecipient(id.age) == Some(to.age) && s.kemPublic(id.mlkem) == Some(to.mlkem)
  }

  function Signed(mlkemCt: Bytes, ageCt: Bytes, secret: Bytes): Bytes {
    mlkemCt + ageCt + secret
  }

  function Seal(s: Suite, plaintext: Bytes, to: Recipient, signingKey: Bytes, draws: Draws): Result<Envelope, Error> {
    if draws.secret.None? then Err(RngFailed) else
    var ageCt := s.ageEncrypt(to.age, draws.secret.value, draws.age);
    if ageCt.None? then Err(AgeEncryptFailed) else
    var kem := s.kemEncapsulate(to.mlkem, draws.kem);
    if kem.None? then Err(PqEncapsulateFailed) else
    var dek := s.combine(draws.secret.value, kem.value.1);
    if dek.None? then Err(HybridCombineFailed) else
    if draws.nonce.None? then Err(RngFailed) else
    var ct := s.aeadSeal(dek.value, draws.nonce.value, plaintext);
    if ct.None? then Err(AeadFailed) else
    var secret := draws.nonce.value + ct.value;
    var sig := s.sign(signingKey, s.digest(Signed(kem.value.0, ageCt.value, secret)));
    if sig.None? then Err(PqSignFailed) else
    var vk := s.verifyingKey(signingKey);
    if vk.None? then Err(PqSignFailed) else
    Ok(Envelope(V2Hybrid, kem.value.0, ageCt.value, secret, sig.value, vk.value))
  }

  function Open(s: Suite, e: Envelope, id: Identity): Result<Bytes, Error> {
    var valid := s.verify(
      e.signingPublicKey, s.digest(Signed(e.mlkemCiphertext, e.ageCiphertext, e.encryptedSecret)), e.signature);
    if valid.None? then Err(PqVerifyFailed) else
    if !valid.value then Err(EnvelopeSignatureInvalid) else
    var classical := s.ageDecrypt(id.age, e.ageCiphertext);
    if classical.None? then Err(AgeDecryptFailed) else
    var pq := s.kemDecapsulate(id.mlkem, e.mlkemCiphertext);
    if pq.None? then Err(PqDecapsulateFailed) else
    var dek := s.combine(classical.value, pq.value);
    if dek.None? then Err(HybridCombineFailed) else
    if |e.encryptedSecret| < 12 then Err(EnvelopeParseFailed) else
    var plaintext := s.aeadOpen(dek.value, e.encryptedSecret[..12], e.encryptedSecret[12..]);
    if plaintext.None? then Err(AeadFailed) else Ok(plaintext.value)
  }

  function Upgrade(s: Suite, v1: Bytes, oldIdentity: Bytes, to: Recipient, signingKey: Bytes, draws: Draws)
    : Result<Envelope, Error>
  {
    var plaintext := s.ageDecrypt(oldIdentity, v1);
    if plaintext.None? then Err(AgeDecryptFailed) else Seal(s, plaintext.value, to, signingKey, draws)
  }

  /** The key that both shared secrets give together. */
  function Dek(s: Suite, classical: Option<Bytes>, kem: Option<Bytes>): Option<Bytes> {
    if classical.Some? && kem.Some? then s.combine(classical.value, kem.value) else None
  }

  /**
   Sealing gives this envelope exactly when both draws and all primitives work and its parts are these: the
   first secret under age, the encapsulation of the second, the drawn nonce before what it encrypts under
   the key of both, and a signature over the three.
   */
  lemma SealsExactly(s: Suite, plaintext: Bytes, to: Recipient, signingKey: Bytes, draws: Draws, e: Envelope)
    ensures Seal(s, plaintext, to, signingKey, draws) == Ok(e) <==>
              && e.version == V2Hybrid && draws.secret.Some? && draws.nonce.Some?
              && s.ageEncrypt(to.age, draws.secret.value, draws.age) == Some(e.ageCiphertext)
              && s.sign(signingKey, s.digest(e.mlkemCiphertext + e.ageCiphertext + e.encryptedSecret)) == Some(e.signature)
              && s.verifyingKey(signingKey) == Some(e.signingPublicKey)
              && (exists second, dek, ct ::
                    && s.kemEncapsulate(to.mlkem, draws.kem) == Some((e.mlkemCiphertext, second))
                    && s.combine(draws.secret.value, second) == Some(dek)
                    && s.aeadSeal(dek, draws.nonce.value, plaintext) == Some(ct)
                    && e.encryptedSecret == draws.nonce.value + ct)
  {
  }

  /** Opening gives this plaintext exactly when the signature over the three parts holds and every step works. */
  lemma OpensExactly(s: Suite, e: Envelope, id: Identity, plaintext: Bytes)
    ensures Open(s, e, id) == Ok(plaintext) <==>
              && s.verify(e.signingPublicKey, s.digest(e.mlkemCiphertext + e.ageCiphertext + e.encryptedSecret), e.signature)
                 == Some(true)
              && |e.encryptedSecret| >= 12
              && (exists first, second, dek ::
                    && s.ageDecrypt(id.age, e.ageCiphertext) == Some(first)
                    && s.kemDecapsulate(id.mlkem, e.mlkemCiphertext) == Some(second)
                    && s.combine(first, second) == Some(dek)
                    && s.aeadOpen(dek, e.encryptedSecret[..12], e.encryptedSecret[12..]) == Some(plaintext))
  {
  }

  /** The first step that fails gives the error, in the order in which the steps are taken. */
  lemma FailsInOrder(
    s: Suite, plaintext: Bytes, to: Recipient, signingKey: Bytes, draws: Draws, e: Envelope, id: Identity)
    ensures var r := Seal(s, plaintext, to, signingKey, draws);
            && (draws.secret.None? ==> r == Err(RngFailed))
            && (draws.secret.Some? ==>
                  var age := s.ageEncrypt(to.age, draws.secret.value, draws.age);
                  var kem := s.kemEncapsulate(to.mlkem, draws.kem);
                  && (age.None? ==> r == Err(AgeEncryptFailed))
                  && (age.Some? && kem.None? ==> r == Err(PqEncapsulateFailed))
                  && (age.Some? && kem.Some? ==>
                        var dek := s.combine(draws.secret.value, kem.value.1);
                        && (dek.None? ==> r == Err(HybridCombineFailed))
                        && (dek.Some? && draws.nonce.None? ==> r == Err(RngFailed))
                        && (dek.Some? && draws.nonce.Some? ==>
                              var ct := s.aeadSeal(dek.value, draws.nonce.value, plaintext);
                              if ct.None? then r == Err(AeadFailed) else r.Ok? || r == Err(PqSignFailed))))
    ensures var r, valid := Open(s, e, id), s.verify(
              e.signingPublicKey, s.digest(e.mlkemCiphertext + e.ageCiphertext + e.encryptedSecret), e.signature);
            var age, kem := s.ageDecrypt(id.age, e.ageCiphertext), s.kemDecapsulate(id.mlkem, e.mlkemCiphertext);
            && (valid.None? ==> r == Err(PqVerifyFailed))
            && (valid == Some(false) ==> r == Err(EnvelopeSignatureInvalid))
            && (valid == Some(true) ==>
                  && (age.None? ==> r == Err(AgeDecryptFailed))
                  && (age.Some? && kem.None? ==> r == Err(PqDecapsulateFailed))
                  && (age.Some? && kem.Some? && Dek(s, age, kem).None? ==> r == Err(HybridCombineFailed))
                  && (Dek(s, age, kem).Some? ==>
                        if |e.encryptedSecret| < 12 then r == Err(EnvelopeParseFailed) else r.Ok? || r == Err(AeadFailed)))
  {
  }

  /** Opening what was sealed, with the matching private keys, recovers the plaintext. */
  lemma OpenSealed(s: Suite, plaintext: Bytes, to: Recipient, signingKey: Bytes, draws: Draws, id: Identity)
    requires s.Lawful() && draws.Valid() && Matches(s, id, to)
    requires Seal(s, plaintext, to, signingKey, draws).Ok?
    ensures Open(s, Seal(s, plaintext, to, signingKey, draws).value, id) == Ok(plaintext)
  {
    var e := Seal(s, plaintext, to, signingKey, draws).value;
    assert e.encryptedSecret[..12] == draws.nonce.value;
    var kem := s.kemEncapsulate(to.mlkem, draws.kem).value;
    var dek := s.combine(draws.secret.value, kem.1).value;
    assert e.encryptedSecret[12..] == s.aeadSeal(dek, draws.nonce.value, plaintext).value;
  }

  /** The check that `Open` makes first. */
  predicate SignatureAccepts(s: Suite, e: Envelope) {
    s.verify(e.signingPublicKey, s.digest(Signed(e.mlkemCiphertext, e.ageCiphertext, e.encryptedSecret)), e.signature)
    == Some(true)
  }

  /**
   A signature covers the parts run together.  Under the signature and key of a sealed envelope, other
   parts are accepted if and only if they give the same bytes when they are run together.
   */
  lemma SignatureCoversConcatenationExactly(
    s: Suite, plaintext: Bytes, to: Recipient, signingKey: Bytes, draws: Draws, other: Envelope)
    requires s.Lawful() && s.Binding() && Seal(s, plaintext, to, signingKey, draws).Ok?
    requires var e := Seal(s, plaintext, to, signingKey, draws).value;
             other.signature == e.signature && other.signingPublicKey == e.signingPublicKey
    ensures var e := Seal(s, plaintext, to, signingKey, draws).value;
            SignatureAccepts(s, other)
            <==> Signed(other.mlkemCiphertext, other.ageCiphertext, other.encryptedSecret)
                 == Signed(e.mlkemCiphertext, e.ageCiphertext, e.encryptedSecret)
  {
    assert SignatureAccepts(s, Seal(s, plaintext, to, signingKey, draws).value);
  }

  /** The boundaries between the parts are not covered: the first byte of the second may join the first. */
  lemma BoundariesAreNotSigned(
    s: Suite, plaintext: Bytes, to: Recipient, signingKey: Bytes, draws: Draws) returns (other: Envelope)
    requires s.Lawful() && Seal(s, plaintext, to, signingKey, draws).Ok?
    requires Seal(s, plaintext, to, signingKey, draws).value.ageCiphertext != []
    ensures other != Seal(s, plaintext, to, signingKey, draws).value && SignatureAccepts(s, other)
  {
    var e := Seal(s, plaintext, to, signingKey, draws).value;
    other := e.(mlkemCiphertext := e.mlkemCiphertext + e.ageCiphertext[..1], ageCiphertext := e.ageCiphertext[1..]);
    assert SignatureAccepts(s, e);
    assert |other.mlkemCiphertext| != |e.mlkemCiphertext|;
    assert e.mlkemCiphertext + e.ageCiphertext[..1] + e.ageCiphertext[1..] == e.mlkemCiphertext + e.ageCiphertext;
  }

  lemma CutAlike(a: seq<Bytes>, b: seq<Bytes>)
    requires |a| == |b| == 3 && |a[0]| == |b[0]| && |a[1]| == |b[1]|
    requires Signed(a[0], a[1], a[2]) == Signed(b[0], b[1], b[2])
    ensures a == b
  {
    var x, y := Signed(a[0], a[1], a[2]), Signed(b[0], b[1], b[2]);
    var m, n := |a[0]|, |a[1]|;
    assert x[..m] == a[0] && y[..m] == b[0];
    assert x[m..m + n] == a[1] && y[m..m + n] == b[1];
    assert x[m + n..] == a[2] && y[m + n..] == b[2];
  }

  /**
   So where the first two parts keep their lengths, nothing but the sealed envelope opens under its
   signature and key, and even that only for both private keys.
   */
  lemma ReplacedPartsDoNotOpen(
    s: Suite, plaintext: Bytes, to: Recipient, signingKey: Bytes, draws: Draws, other: Envelope, id: Identity)
    requires s.Lawful() && s.Binding() && Seal(s, plaintext, to, signingKey, draws).Ok?
    requires var e := Seal(s, plaintext, to, signingKey, draws).value;
             && other.version == e.version && other.signature == e.signature && other.signingPublicKey == e.signingPublicKey
             && |other.mlkemCiphertext| == |e.mlkemCiphertext| && |other.ageCiphertext| == |e.ageCiphertext|
    ensures Open(s, other, id).Ok? ==>
              && other == Seal(s, plaintext, to, signingKey, draws).value
              && s.ageDecrypt(id.age, other.ageCiphertext).Some? && s.kemDecapsulate(id.mlkem, other.mlkemCiphertext).Some?
  {
    var e := Seal(s, plaintext, to, signingKey, draws).value;
    if Open(s, other, id).Ok? {
      assert SignatureAccepts(s, other);
      SignatureCoversConcatenationExactly(s, plaintext, to, signingKey, draws, other);
      var a := [e.mlkemCiphertext, e.ageCiphertext, e.encryptedSecret];
      var b := [other.mlkemCiphertext, other.ageCiphertext, other.encryptedSecret];
      CutAlike(a, b);
      assert a[0] == b[0] && a[1] == b[1] && a[2] == b[2];
    }
  }

  /** Which sealed envelopes survive the wire: those whose plaintext leaves room for nonce and tag. */
  lemma SealedFits(s: Suite, plaintext: Bytes, to: Recipient, signingKey: Bytes, draws: Draws)
    requires s.Sized() && draws.Valid()
    requires Seal(s, plaintext, to, signingKey, draws).Ok?
    ensures Fits(Seal(s, plaintext, to, signingKey, draws).value) <==> |plaintext| + 28 < TWO_32
  {
    var e := Seal(s, plaintext, to, signingKey, draws).value;
    assert |e.encryptedSecret| == |plaintext| + 28;
    assert e.Fields()[2] == e.encryptedSecret;
  }

  /** Seal, print, append anything, parse and open: the plaintext comes back. */
  lemma OpenFromTheWire(
    s: Suite, plaintext: Bytes, to: Recipient, signingKey: Bytes, draws: Draws, id: Identity, tail: Bytes)
    requires s.Lawful() && s.Sized() && draws.Valid() && Matches(s, id, to)
    requires Seal(s, plaintext, to, signingKey, draws).Ok? && |plaintext| + 28 < TWO_32
    ensures var d := Decode(Encode(Seal(s, plaintext, to, signingKey, draws).value) + tail);
            d.Ok? && Open(s, d.value, id) == Ok(plaintext)
  {
    SealedFits(s, plaintext, to, signingKey, draws);
    ParseEncoded(Seal(s, plaintext, to, signingKey, draws).value, tail);
    OpenSealed(s, plaintext, to, signingKey, draws, id);
  }

  /** Upgrading an age-only blob and opening the result gives what the age blob held. */
  lemma OpenUpgraded(
    s: Suite, plaintext: Bytes, oldRecipient: string, oldDraw: nat, oldIdentity: Bytes,
    to: Recipient, signingKey: Bytes, draws: Draws, id: Identity)
    requires s.Lawful() && draws.Valid() && Matches(s, id, to)
    requires s.ageRecipient(oldIdentity) == Some(oldRecipient)
    requires s.ageEncrypt(oldRecipient, plaintext, oldDraw).Some?
    ensures var v1 := s.ageEncrypt(oldRecipient, plaintext, oldDraw).value;
            var v2 := Upgrade(s, v1, oldIdentity, to, signingKey, draws);
            && v2 == Seal(s, plaintext, to, signingKey, draws)
            && (v2.Ok? ==> Open(s, v2.value, id) == Ok(plaintext) && Detect(Encode(v2.value)) == V2Hybrid)
  {
    var v2 := Seal(s, plaintext, to, signingKey, draws);
    if v2.Ok? {
      OpenSealed(s, plaintext, to, signingKey, draws, id);
      assert Encode(v2.value)[..4] == MAGIC_V2;
    }
  }

  // ---------- the local KMS ----------

  datatype LocalKms = LocalKms(masterKey: Bytes) {
    // The cipher is built from a 32-byte key; any other length panics.
    function Encrypt(s: Suite, plaintext: Bytes, nonce: Option<Bytes>): Result<Bytes, Error> {
      if |masterKey| != 32 then Err(WrongKeyLength)
      else if nonce.None? then Err(RngFailed)
      else
        var ct := s.aeadSeal(masterKey, nonce.value, plaintext);
        if ct.None? then Err(AeadFailed) else Ok(nonce.value + ct.value)
    }

    function Decrypt(s: Suite, ciphertext: Bytes): Result<Bytes, Error> {
      if |ciphertext| < 12 then Err(CiphertextTooShort)
      else if |masterKey| != 32 then Err(WrongKeyLength)
      else
        var p := s.aeadOpen(masterKey, ciphertext[..12], ciphertext[12..]);
        if p.None? then Err(AeadFailed) else Ok(p.value)
    }
  }

  /** Both directions work for a 32-byte key only; the drawn nonce stands in front of what it encrypts. */
  lemma LocalKmsExactly(s: Suite, masterKey: Bytes, plaintext: Bytes, nonce: Option<Bytes>, ciphertext: Bytes)
    ensures LocalKms(masterKey).Encrypt(s, plaintext, nonce) == Ok(ciphertext) <==>
              && |masterKey| == 32 && nonce.Some?
              && var ct := s.aeadSeal(masterKey, nonce.value, plaintext);
                 ct.Some? && ciphertext == nonce.value + ct.value
    ensures LocalKms(masterKey).Decrypt(s, ciphertext) == Ok(plaintext) <==>
              && |masterKey| == 32 && |ciphertext| >= 12
              && s.aeadOpen(masterKey, ciphertext[..12], ciphertext[12..]) == Some(plaintext)
    ensures |ciphertext| < 12 ==> LocalKms(masterKey).Decrypt(s, ciphertext) == Err(CiphertextTooShort)
    ensures |masterKey| == 32 && nonce.None? ==> LocalKms(masterKey).Encrypt(s, plaintext, nonce) == Err(RngFailed)
  {
  }

  /** How writing a file ended: done, refused before it was opened, or broken off with some content left. */
  datatype WriteOutcome = Written | Refused | Torn(content: Bytes)

  class Disk {
    var files: map<string, Bytes>

    constructor ()
      ensures files == map[]
    {
      files := map[];
    }

    method Write(path: string, content: Bytes, outcome: WriteOutcome) returns (ok: bool)
      modifies this
      ensures ok == outcome.Written?
      ensures files == match outcome
                       case Written => old(files)[path := content]
                       case Refused => old(files)
                       case Torn(c) => old(files)[path := c]
    {
      match outcome {
        case Written => files := files[path := content];
        case Refused =>
        case Torn(c) => files := files[path := c];
      }
      ok := outcome.Written?;
    }
  }

  /** The KMS that a stored envelope yields. */
  function Reload(s: Suite, stored: Bytes, id: Identity): Result<LocalKms, Error> {
    var e := Decode(stored);
    if e.Err? then Err(EnvelopeParseFailed) else
    var key := Open(s, e.value, id);
    if key.Err? then Err(key.error) else Ok(LocalKms(key.value))
  }

  /** A fresh 32-byte master key is sealed and stored; on every failure no usable provider is returned. */
  method Generate(
    disk: Disk, s: Suite, path: string, to: Recipient, signingKey: Bytes,
    masterKey: Option<Bytes>, draws: Draws, outcome: WriteOutcome)
    returns (r: Result<LocalKms, Error>)
    requires masterKey.Some? ==> |masterKey.value| == 32
    modifies disk
    ensures r.Ok? ==> && masterKey.Some? && r.value.masterKey == masterKey.value
                      && Seal(s, masterKey.value, to, signingKey, draws).Ok?
                      && disk.files
                         == old(disk.files)[path := Encode(Seal(s, masterKey.value, to, signingKey, draws).value)]
    ensures r.Err? ==> disk.files
                       == if masterKey.Some? && Seal(s, masterKey.value, to, signingKey, draws).Ok? && outcome.Torn?
                          then old(disk.files)[path := outcome.content] else old(disk.files)
    ensures r.Ok? <==> && masterKey.Some? && outcome.Written?
                       && Seal(s, masterKey.value, to, signingKey, draws).Ok?
  {
    if masterKey.None? {
      return Err(RngFailed);
    }
    var sealed := Seal(s, masterKey.value, to, signingKey, draws);
    if sealed.Err? {
      return Err(sealed.error);
    }
    var content := ToBytes(sealed.value);
    var ok := disk.Write(path, content, outcome);
    if !ok {
      return Err(WriteFailed);
    }
    r := Ok(LocalKms(masterKey.value));
  }

  method FromEnvelope(disk: Disk, s: Suite, path: string, id: Identity) returns (r: Result<LocalKms, Error>)
    requires path in disk.files ==> |disk.files[path]| <= ISIZE_MAX
    ensures r == if path in disk.files then Reload(s, disk.files[path], id) else Err(ReadFailed)
    ensures r.Ok? <==>
              path in disk.files && exists e, key :: Decode(disk.files[path]) == Ok(e) && Open(s, e, id) == Ok(key)
    ensures r.Ok? ==> Open(s, Decode(disk.files[path]).value, id) == Ok(r.value.masterKey)
  {
    if path !in disk.files {
      return Err(ReadFailed);
    }
    var e := FromBytes(disk.files[path]);
    if e.Err? {
      return Err(EnvelopeParseFailed);
    }
    var key := Open(s, e.value, id);
    if key.Err? {
      return Err(key.error);
    }
    r := Ok(LocalKms(key.value));
  }

  /**
   A provider reloaded from its file with the matching identity is the provider that was
   generated, and it decrypts everything that one encrypted.
   */
  lemma ReloadedDecryptsEverything(
    s: Suite, masterKey: Bytes, to: Recipient, signingKey: Bytes, draws: Draws, id: Identity,
    plaintext: Bytes, nonce: Bytes)
    requires s.Lawful() && s.Sized() && draws.Valid() && Matches(s, id, to)
    requires |masterKey| == 32 && |nonce| == 12
    requires Seal(s, masterKey, to, signingKey, draws).Ok?
    ensures var generated := LocalKms(masterKey);
            var again := Reload(s, Encode(Seal(s, masterKey, to, signingKey, draws).value), id);
            && again == Ok(generated)
            && (generated.Encrypt(s, plaintext, Some(nonce)).Ok?
                ==> again.value.Decrypt(s, generated.Encrypt(s, plaintext, Some(nonce)).value) == Ok(plaintext))
  {
    var stored := Encode(Seal(s, masterKey, to, signingKey, draws).value);
    OpenFromTheWire(s, masterKey, to, signingKey, draws, id, []);
    assert stored + [] == stored;
    var ct := LocalKms(masterKey).Encrypt(s, plaintext, Some(nonce));
    if ct.Ok? {
      assert ct.value[..12] == nonce;
      assert ct.value[12..] == s.aeadSeal(masterKey, nonce, plaintext).value;
    }
  }

  // ---------- the laws can be met ----------

  /** A suite that hides nothing and meets every law. */
  function PlainSuite(): Suite {
    Suite(
      (id: Bytes) => Some(""),
      (rcpt: string, p: Bytes, r: nat) => Some(p),
      (id: Bytes, c: Bytes) => Some(c),
      (sk: Bytes) => Some([]),
      (pk: Bytes, r: nat) => Some(([], [])),
      (sk: Bytes, c: Bytes) => Some([]),
      (a: Bytes, b: Bytes) => Some(a + b),
      (k: Bytes, n: Bytes, p: Bytes) => Some(p + seq(16, i => 0)),
      (k: Bytes, n: Bytes, c: Bytes) => if |c| >= 16 then Some(c[..|c| - 16]) else None,
      (d: Bytes) => d,
      (sk: Bytes) => Some([]),
      (sk: Bytes, d: Bytes) => Some([]),
      (vk: Bytes, d: Bytes, sig: Bytes) => Some(true))
  }

  /** One whose signatures are the signed bytes themselves, so that they are good for nothing else. */
  function SigningSuite(): Suite {
    PlainSuite().(
      sign := (sk: Bytes, d: Bytes) => Some(d),
      verify := (vk: Bytes, d: Bytes, sig: Bytes) => Some(sig == d))
  }

  lemma LawsAreSatisfiable()
    ensures PlainSuite().Lawful() && PlainSuite().Sized()
    ensures SigningSuite().Lawful() && SigningSuite().Binding()
  {
    var s := PlainSuite();
    forall k: Bytes, n: Bytes, p: Bytes ensures s.aeadOpen(k, n, s.aeadSeal(k, n, p).value) == Some(p) {
      assert (p + seq(16, i => 0))[..|p|] == p;
    }
  }
}
