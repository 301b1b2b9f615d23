/**
 The AES-256-GCM envelope (packages/core/src/encryption.ts) and the versioned key lookup
 (packages/core/src/key-provider.ts).  The cipher and the text encodings are parameters.
 */
module Envelope {
  import opened Prelude
  import opened Bytes

  const ENVELOPE_VERSION: byte := 1
  const IV_LEN := 12
  const TAG_LEN := 16

  datatype Primitives = Primitives(
    seal: (bytes, bytes, bytes) -> (bytes, bytes),         // key, iv, plaintext -> ciphertext, tag
    open: (bytes, bytes, bytes, bytes) -> Option<bytes>,   // key, iv, ciphertext, tag -> plaintext
    toBase64: bytes -> string, fromBase64: string -> bytes,
    toUtf8: string -> bytes, fromUtf8: bytes -> string)

  /** What the standard library promises of them. */
  ghost predicate Correct(p: Primitives) {
    && (forall key, iv, m :: |p.seal(key, iv, m).1| == TAG_LEN
                             && p.open(key, iv, p.seal(key, iv, m).0, p.seal(key, iv, m).1) == Some(m))
    && (forall b :: p.fromBase64(p.toBase64(b)) == b)
    && (forall s :: p.fromUtf8(p.toUtf8(s)) == s)
  }

  datatype KeyRing = KeyRing(activeVersion: int, keys: map<int, bytes>)

  datatype Payload = Payload(ciphertext: string, keyVersion: int)

  datatype Error = UnknownKeyVersion | TooShort | UnknownEnvelope(version: byte) | NotAuthentic

  function Encrypt(p: Primitives, plaintext: string, ring: KeyRing, iv: bytes): Result<Payload, Error> {
    if ring.activeVersion !in ring.keys then Err(UnknownKeyVersion)
    else
      var (ct, tag) := p.seal(ring.keys[ring.activeVersion], iv, p.toUtf8(plaintext));
      Ok(Payload(p.toBase64([ENVELOPE_VERSION] + iv + ct + tag), ring.activeVersion))
  }

  function Decrypt(p: Primitives, payload: Payload, ring: KeyRing): Result<string, Error> {
    if payload.keyVersion !in ring.keys then Err(UnknownKeyVersion)
    else
      var buf := p.fromBase64(payload.ciphertext);
      if |buf| < 1 + IV_LEN + TAG_LEN then Err(TooShort)
      else if buf[0] != ENVELOPE_VERSION then Err(UnknownEnvelope(buf[0]))
      else
        var iv, tag := buf[1..1 + IV_LEN], buf[|buf| - TAG_LEN..];
        var ct := buf[1 + IV_LEN..|buf| - TAG_LEN];
        match p.open(ring.keys[payload.keyVersion], iv, ct, tag)
        case None => Err(NotAuthentic)
        case Some(pt) => Ok(p.fromUtf8(pt))
  }

  lemma EnvelopeParts(v: byte, iv: bytes, ct: bytes, tag: bytes)
    requires |iv| == IV_LEN && |tag| == TAG_LEN
    ensures var buf := [v] + iv + ct + tag;
            && |buf| == 1 + IV_LEN + |ct| + TAG_LEN && buf[0] == v
            && buf[1..1 + IV_LEN] == iv && buf[1 + IV_LEN..|buf| - TAG_LEN] == ct && buf[|buf| - TAG_LEN..] == tag
  {
  }

  /** What was encrypted is decrypted, by any key ring that still holds the key of its version. */
  lemma DecryptUndoesEncrypt(p: Primitives, plaintext: string, ring: KeyRing, iv: bytes, later: KeyRing)
    requires Correct(p) && |iv| == IV_LEN && ring.activeVersion in ring.keys
    requires ring.activeVersion in later.keys && later.keys[ring.activeVersion] == ring.keys[ring.activeVersion]
    ensures var e := Encrypt(p, plaintext, ring, iv);
            e.Ok? && e.value.keyVersion == ring.activeVersion && Decrypt(p, e.value, later) == Ok(plaintext)
  {
    var key, m := ring.keys[ring.activeVersion], p.toUtf8(plaintext);
    var (ct, tag) := p.seal(key, iv, m);
    assert |p.seal(key, iv, m).1| == TAG_LEN;
    EnvelopeParts(ENVELOPE_VERSION, iv, ct, tag);
  }

  /** What is stored: 1, the IV, the ciphertext, the tag, under the version whose key sealed it. */
  lemma EnvelopeIs(p: Primitives, plaintext: string, ring: KeyRing, iv: bytes)
    requires Correct(p)
    ensures Encrypt(p, plaintext, ring, iv).Ok? <==> ring.activeVersion in ring.keys
    ensures Encrypt(p, plaintext, ring, iv).Ok? ==>
              var e := Encrypt(p, plaintext, ring, iv).value;
              var (ct, tag) := p.seal(ring.keys[ring.activeVersion], iv, p.toUtf8(plaintext));
              e.keyVersion == ring.activeVersion && |tag| == 16 && p.fromBase64(e.ciphertext) == [1] + iv + ct + tag
  {
  }

  /** Each way to fail, in the order it is looked for. */
  lemma DecryptErrsIff(p: Primitives, payload: Payload, ring: KeyRing)
    ensures var r, buf, known := Decrypt(p, payload, ring), p.fromBase64(payload.ciphertext),
                                 payload.keyVersion in ring.keys;
            && (r == Err(UnknownKeyVersion) <==> !known)
            && (r == Err(TooShort) <==> known && |buf| < 29)
            && (forall v :: r == Err(UnknownEnvelope(v)) <==> known && |buf| >= 29 && v == buf[0] != 1)
            && (r == Err(NotAuthentic) <==>
                  && known && |buf| >= 29 && buf[0] == 1
                  && p.open(ring.keys[payload.keyVersion], buf[1..13], buf[13..|buf| - 16], buf[|buf| - 16..]).None?)
  {
  }

  /** Decryption succeeds only on version | IV | ciphertext | tag with an authentic tag. */
  lemma DecryptAcceptsOnlyEnvelopes(p: Primitives, payload: Payload, ring: KeyRing)
    ensures Decrypt(p, payload, ring).Ok? <==>
            && payload.keyVersion in ring.keys
            && exists iv: bytes, ct: bytes, tag: bytes ::
                 && |iv| == 12 && |tag| == 16
                 && p.fromBase64(payload.ciphertext) == [1] + iv + ct + tag
                 && p.open(ring.keys[payload.keyVersion], iv, ct, tag).Some?
  {
    var buf := p.fromBase64(payload.ciphertext);
    if Decrypt(p, payload, ring).Ok? {
      var iv, ct, tag := buf[1..1 + IV_LEN], buf[1 + IV_LEN..|buf| - TAG_LEN], buf[|buf| - TAG_LEN..];
      assert buf == [ENVELOPE_VERSION] + iv + ct + tag;
    }
    forall iv: bytes, ct: bytes, tag: bytes
      | |iv| == IV_LEN && |tag| == TAG_LEN && buf == [ENVELOPE_VERSION] + iv + ct + tag
      ensures |buf| >= 29 && buf[0] == ENVELOPE_VERSION
      ensures buf[1..13] == iv && buf[13..|buf| - 16] == ct && buf[|buf| - 16..] == tag
    {
      EnvelopeParts(ENVELOPE_VERSION, iv, ct, tag);
    }
  }
}
