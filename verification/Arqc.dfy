/**
 The on-behalf-of cryptogram (services/pay/src/arqc/arqc.service.ts): the key-derivation info
 and the MAC input as bytes, and generation and validation around them.  HKDF-SHA256 and
 HMAC-SHA256 are parameters.
 */
module Arqc {
  import opened Prelude
  import opened Text
  import opened Bytes
  import opened Hex
  import opened Sequences
  import Utf8

  datatype Config = Config(
    seedHex: string,                               // VERA_ROOT_ARQC_SEED
    hkdf: (bytes, bytes, bytes) -> bytes,          // ikm, salt, info -> 32 bytes
    hmac: (bytes, bytes) -> bytes)                 // key, message -> digest

  ghost predicate Assumed(c: Config) { forall key, m :: |c.hmac(key, m)| == 32 }

  datatype Input = Input(
    bin: string, cardId: string, atc: int, amount: int, currency: string, merchantRef: string, nonce: string)

  /** What Node throws for an integer that does not fit the field it is written to. */
  datatype OutOfRange = OutOfRange

  function BE(n: nat, width: nat): (s: bytes)
    ensures |s| == width
  {
    if width == 0 then [] else BE(n / 256, width - 1) + [n % 256]
  }

  /** writeUInt32BE and writeBigUInt64BE */
  function UIntBE(n: int, width: nat): Result<bytes, OutOfRange> {
    if 0 <= n < Pow256(width) then Ok(BE(n, width)) else Err(OutOfRange)
  }

  /** The info of the second HKDF. */
  function CardInfo(cardId: string, atc: int): Result<bytes, OutOfRange> {
    match UIntBE(atc, 4)
    case Err(e) => Err(e)
    case Ok(atcBuf) => Ok(Utf8.Encode(cardId) + atcBuf)
  }

  function Message(i: Input): Result<bytes, OutOfRange> {
    match (UIntBE(i.atc, 4), UIntBE(i.amount, 8))
    case (Ok(atcBuf), Ok(amountBuf)) =>
      Ok(amountBuf + ([0] + (Utf8.Encode(i.currency) + [0] + (Utf8.Encode(i.merchantRef) + [0]
         + (Utf8.Encode(i.nonce) + ([0] + atcBuf))))))
    case _ => Err(OutOfRange)
  }

  const VIMK_SALT := Utf8.Encode("vera-vimk-v1")
  const KCARD_SALT := Utf8.Encode("vera-card-ac")

  function CardKey(c: Config, seed: bytes, i: Input): Result<bytes, OutOfRange> {
    match CardInfo(i.cardId, i.atc)
    case Err(e) => Err(e)
    case Ok(info) => Ok(c.hkdf(c.hkdf(seed, VIMK_SALT, Utf8.Encode(i.bin)), KCARD_SALT, info))
  }

  function Generate(c: Config, i: Input): Result<string, OutOfRange>
    requires Assumed(c)
  {
    var key, m := CardKey(c, FromHex(c.seedHex), i), Message(i);
    if key.Err? || m.Err? then Err(OutOfRange)
    else
      var mac := c.hmac(key.value, m.value);
      assert |mac| == 32;
      Ok(ToHex(mac[..16]))
  }

  /** It throws exactly if an integer does not fit, and else prints 32 lower-case hex digits. */
  lemma GeneratesHexIff(c: Config, i: Input)
    requires Assumed(c)
    ensures var r := Generate(c, i);
            && (r.Ok? <==> 0 <= i.atc < Pow256(4) && 0 <= i.amount < Pow256(8))
            && (r.Ok? ==> |r.value| == 32 && AllHex(r.value) && ToLower(r.value) == r.value)
  {
    hide Utf8.Encode, BE, FromHex, Pow256;
    var key, m := CardKey(c, FromHex(c.seedHex), i), Message(i);
    if key.Ok? && m.Ok? {
      var mac := c.hmac(key.value, m.value);
      assert |mac| == 32;
      LowerHexIsLower(mac[..16]);
    }
  }

  lemma LowerHexIsLower(b: bytes)
    ensures ToLower(ToHex(b)) == ToHex(b)
  {
  }

  // --- the encodings are unambiguous -----------------------------------------------------------

  lemma {:induction false} BigEndianAppend(s: bytes, b: byte)
    ensures BigEndian(s + [b]) == 256 * BigEndian(s) + b
  {
    if s == [] {
      assert [b][1..] == [];
    } else {
      assert (s + [b])[0] == s[0] && (s + [b])[1..] == s[1..] + [b];
      BigEndianAppend(s[1..], b);
      Shift(s[0], |s| - 1);
    }
  }

  lemma Shift(x: nat, n: nat)
    ensures x * Pow256(n + 1) == 256 * (x * Pow256(n))
  {
  }

  /** BE is big-endian, and loses nothing of a number that fits. */
  lemma {:induction false} BigEndianUndoesBE(n: nat, width: nat)
    requires n < Pow256(width)
    ensures BigEndian(BE(n, width)) == n
  {
    if width > 0 {
      BigEndianUndoesBE(n / 256, width - 1);
      BigEndianAppend(BE(n / 256, width - 1), n % 256);
    }
  }

  /**
   Where a reader of the bytes finds what: the amount in the first eight, the counter in the
   last four, both big-endian, and between two zeros the texts, zero-separated and in order.
   */
  lemma MessageLayout(i: Input)
    requires Message(i).Ok?
    ensures var m := Message(i).value;
            var n := |m|;
            && n >= 16
            && BigEndian(m[..8]) == i.amount && m[8] == 0
            && m[9..n - 5] == Utf8.Encode(i.currency + "\0" + i.merchantRef + "\0" + i.nonce)
            && m[n - 5] == 0 && BigEndian(m[n - 4..]) == i.atc
  {
    var amount, atc := BE(i.amount, 8), BE(i.atc, 4);
    BigEndianUndoesBE(i.amount, 8);
    BigEndianUndoesBE(i.atc, 4);
    Regroup(i);
    TextsAreOneText(i);
    hide Message, Utf8.Encode, BE, Texts;
    LayoutCuts(amount, Texts(i), atc);
  }

  lemma LayoutCuts(amount: bytes, texts: bytes, atc: bytes)
    requires |amount| == 8 && |atc| == 4
    ensures var m := amount + ([0] + (texts + ([0] + atc)));
            var n := |m|;
            && n == 14 + |texts| && m[..8] == amount && m[8] == 0 && m[9..n - 5] == texts
            && m[n - 5] == 0 && m[n - 4..] == atc
  {
  }

  lemma TextsAreOneText(i: Input)
    ensures Texts(i) == Utf8.Encode(i.currency + "\0" + i.merchantRef + "\0" + i.nonce) && |Texts(i)| >= 2
  {
    hide Utf8.Encode;
    JoinAtNul(i.currency + "\0" + i.merchantRef, i.nonce);
    JoinAtNul(i.currency, i.merchantRef);
    var c, m, n := Utf8.Encode(i.currency), Utf8.Encode(i.merchantRef), Utf8.Encode(i.nonce);
    assert c + [0] + (m + [0] + n) == c + [0] + m + [0] + n;
  }

  lemma SameNumber(m: int, n: int, width: nat)
    requires UIntBE(m, width).Ok? && UIntBE(m, width) == UIntBE(n, width)
    ensures m == n
  {
    BigEndianUndoesBE(m, width);
    BigEndianUndoesBE(n, width);
  }

  lemma SameText(s: string, t: string)
    requires Utf8.Encode(s) == Utf8.Encode(t)
    ensures s == t
  {
    Utf8.EncodeIsInjective(s, t);
  }

  /** Equal infos come from equal card ids and counters, whatever the card ids are. */
  lemma CardInfoIsInjective(card1: string, atc1: int, card2: string, atc2: int)
    requires CardInfo(card1, atc1).Ok?
    ensures CardInfo(card1, atc1) == CardInfo(card2, atc2) <==> card1 == card2 && atc1 == atc2
  {
    if CardInfo(card1, atc1) == CardInfo(card2, atc2) {
      SplitBack(Utf8.Encode(card1), BE(atc1, 4), Utf8.Encode(card2), BE(atc2, 4));
      SameNumber(atc1, atc2, 4);
      SameText(card1, card2);
    }
  }

  /** Everything the MAC input carries; the BIN and the card id reach the MAC through its key. */
  function Carried(i: Input): (int, string, string, string, int) {
    (i.amount, i.currency, i.merchantRef, i.nonce, i.atc)
  }

  predicate NulFree(i: Input) { '\0' !in i.currency && '\0' !in i.merchantRef }

  /**
   If currency and merchant reference hold no NUL, equal MAC inputs come from equal amounts,
   currencies, merchant references, nonces and counters; the nonce may hold anything.
   */
  lemma MessageIsInjective(i: Input, j: Input)
    requires NulFree(i) && NulFree(j) && Message(i).Ok?
    ensures Message(i) == Message(j) <==> Carried(i) == Carried(j)
  {
    if Message(i) == Message(j) {
      hide Utf8.Encode, BE;
      var a1, a2 := BE(i.amount, 8), BE(j.amount, 8);
      var c1, c2 := Utf8.Encode(i.currency), Utf8.Encode(j.currency);
      var m1, m2 := Utf8.Encode(i.merchantRef), Utf8.Encode(j.merchantRef);
      var n1, n2 := Utf8.Encode(i.nonce), Utf8.Encode(j.nonce);
      var t1, t2 := [0] + BE(i.atc, 4), [0] + BE(j.atc, 4);
      SplitFront(a1, [0] + (c1 + [0] + (m1 + [0] + (n1 + t1))), a2, [0] + (c2 + [0] + (m2 + [0] + (n2 + t2))));
      SplitFront([0], c1 + [0] + (m1 + [0] + (n1 + t1)), [0], c2 + [0] + (m2 + [0] + (n2 + t2)));
      NoZeros(i);
      NoZeros(j);
      FirstSeparator(c1, m1 + [0] + (n1 + t1), c2, m2 + [0] + (n2 + t2), 0);
      FirstSeparator(m1, n1 + t1, m2, n2 + t2, 0);
      SplitBack(n1, t1, n2, t2);
      SplitFront([0], BE(i.atc, 4), [0], BE(j.atc, 4));
      SameNumber(i.amount, j.amount, 8);
      SameNumber(i.atc, j.atc, 4);
      SameText(i.currency, j.currency);
      SameText(i.merchantRef, j.merchantRef);
      SameText(i.nonce, j.nonce);
    }
  }

  lemma NoZeros(i: Input)
    requires NulFree(i)
    ensures 0 !in Utf8.Encode(i.currency) && 0 !in Utf8.Encode(i.merchantRef)
  {
    Utf8.ZeroIsNul(i.currency);
    Utf8.ZeroIsNul(i.merchantRef);
  }

  /** The fields between the amount and the counter. */
  function Texts(i: Input): bytes {
    Utf8.Encode(i.currency) + [0] + (Utf8.Encode(i.merchantRef) + [0] + Utf8.Encode(i.nonce))
  }

  lemma MessageByTexts(i: Input, j: Input)
    requires i.amount == j.amount && i.atc == j.atc && Texts(i) == Texts(j)
    ensures Message(i) == Message(j)
  {
    hide Utf8.Encode, BE;
    if Message(i).Ok? {
      Regroup(i);
      Regroup(j);
    }
  }

  lemma Regroup(i: Input)
    requires Message(i).Ok?
    ensures Message(i).value == BE(i.amount, 8) + ([0] + (Texts(i) + ([0] + BE(i.atc, 4))))
  {
    hide Utf8.Encode, BE;
    var c, m, n, t := Utf8.Encode(i.currency), Utf8.Encode(i.merchantRef), Utf8.Encode(i.nonce), [0] + BE(i.atc, 4);
    assert c + [0] + (m + [0] + (n + t)) == (c + [0] + (m + [0] + n)) + t;
  }

  /** Three stretches without zeros, two zeros between: nothing else spells them. */
  lemma TwoZeros(a: bytes, b: bytes, c: bytes, x: bytes, y: bytes, z: bytes)
    requires a + [0] + (b + [0] + c) == x + [0] + (y + [0] + z) && 0 !in a && 0 !in b && 0 !in c
    ensures a == x && b == y && c == z
  {
    var s := a + [0] + (b + [0] + c);
    assert s[|x|] == 0 && s[|x| + 1 + |y|] == 0;
    forall i | 0 <= i < |s| && i != |a| && i != |a| + 1 + |b|
      ensures s[i] != 0
    {
      assert s[i] == if i < |a| then a[i] else if i < |a| + 1 + |b| then b[i - |a| - 1] else c[i - |a| - |b| - 2];
    }
    SplitFront(a + [0], b + [0] + c, x + [0], y + [0] + z);
    SplitFront(a, [0], x, [0]);
    SplitFront(b + [0], c, y + [0], z);
    SplitFront(b, [0], y, [0]);
  }

  lemma CutAtNul(s: string) returns (a: string, b: string)
    requires '\0' in s
    ensures s == a + "\0" + b && Utf8.Encode(s) == Utf8.Encode(a) + [0] + Utf8.Encode(b)
  {
    var k :| 0 <= k < |s| && s[k] == '\0';
    a, b := s[..k], s[k + 1..];
    assert s == a + "\0" + b;
    Utf8.EncodeJoins(a + "\0", b);
    Utf8.EncodeJoins(a, "\0");
    assert Utf8.Encode("\0") == [0] by { assert "\0"[1..] == []; }
  }

  lemma JoinAtNul(a: string, b: string)
    ensures Utf8.Encode(a + "\0" + b) == Utf8.Encode(a) + [0] + Utf8.Encode(b)
  {
    Utf8.EncodeJoins(a + "\0", b);
    Utf8.EncodeJoins(a, "\0");
    assert Utf8.Encode("\0") == [0] by { assert "\0"[1..] == []; }
  }

  /** A NUL in any text field lets a neighbour take its place as separator. */
  lemma Ambiguity(i: Input) returns (j: Input)
    requires '\0' in i.currency || '\0' in i.merchantRef || '\0' in i.nonce
    ensures Message(i) == Message(j) && Carried(i) != Carried(j)
  {
    hide Utf8.Encode, Message;
    if '\0' in i.currency {
      var a, b := CutAtNul(i.currency);
      JoinAtNul(b, i.merchantRef);
      j := i.(currency := a, merchantRef := b + "\0" + i.merchantRef);
    } else if '\0' in i.merchantRef {
      var a, b := CutAtNul(i.merchantRef);
      JoinAtNul(b, i.nonce);
      j := i.(merchantRef := a, nonce := b + "\0" + i.nonce);
    } else {
      var a, b := CutAtNul(i.nonce);
      JoinAtNul(i.merchantRef, a);
      j := i.(merchantRef := i.merchantRef + "\0" + a, nonce := b);
    }
    assert Texts(i) == Texts(j);
    MessageByTexts(i, j);
  }

  lemma OnlyReading(i: Input, j: Input)
    requires '\0' !in i.currency && '\0' !in i.merchantRef && '\0' !in i.nonce
    requires Message(i).Ok? && Message(i) == Message(j)
    ensures Carried(i) == Carried(j)
  {
    hide Utf8.Encode, BE, Texts;
    Regroup(i);
    Regroup(j);
    var t1, t2 := [0] + BE(i.atc, 4), [0] + BE(j.atc, 4);
    SplitFront(BE(i.amount, 8), [0] + (Texts(i) + t1), BE(j.amount, 8), [0] + (Texts(j) + t2));
    SplitFront([0], Texts(i) + t1, [0], Texts(j) + t2);
    SplitBack(Texts(i), t1, Texts(j), t2);
    SplitFront([0], BE(i.atc, 4), [0], BE(j.atc, 4));
    SameNumber(i.amount, j.amount, 8);
    SameNumber(i.atc, j.atc, 4);
    SameTexts(i, j);
  }

  lemma SameTexts(i: Input, j: Input)
    requires '\0' !in i.currency && '\0' !in i.merchantRef && '\0' !in i.nonce && Texts(i) == Texts(j)
    ensures i.currency == j.currency && i.merchantRef == j.merchantRef && i.nonce == j.nonce
  {
    Utf8.ZeroIsNul(i.currency);
    Utf8.ZeroIsNul(i.merchantRef);
    Utf8.ZeroIsNul(i.nonce);
    TwoZeros(Utf8.Encode(i.currency), Utf8.Encode(i.merchantRef), Utf8.Encode(i.nonce),
             Utf8.Encode(j.currency), Utf8.Encode(j.merchantRef), Utf8.Encode(j.nonce));
    SameText(i.currency, j.currency);
    SameText(i.merchantRef, j.merchantRef);
    SameText(i.nonce, j.nonce);
  }

  /**
   Exactly when the null separators do what they are there for: a MAC input has one reading,
   among all inputs, if and only if none of its three texts holds a NUL.
   */
  lemma MessageHasOneReadingIff(i: Input)
    requires Message(i).Ok?
    ensures (forall j :: Message(i) == Message(j) ==> Carried(i) == Carried(j))
            <==> '\0' !in i.currency && '\0' !in i.merchantRef && '\0' !in i.nonce
  {
    hide Message;
    if '\0' !in i.currency && '\0' !in i.merchantRef && '\0' !in i.nonce {
      forall j | Message(i) == Message(j)
        ensures Carried(i) == Carried(j)
      {
        OnlyReading(i, j);
      }
    } else {
      var j := Ambiguity(i);
      assert Message(i) == Message(j) && Carried(i) != Carried(j);
    }
  }

  // --- generation and validation -----------------------------------------------------------------

  /** /^[0-9a-fA-F]{32}$/ */
  predicate WellFormed(candidate: string) { |candidate| == 32 && AllHex(candidate) }

  /** A malformed candidate is turned down before anything is generated. */
  function Validate(c: Config, i: Input, candidate: string): Result<bool, OutOfRange>
    requires Assumed(c)
  {
    if !WellFormed(candidate) then Ok(false)
    else
      match Generate(c, i)
      case Err(e) => Err(e)
      case Ok(expected) => Ok(FromHex(expected) == FromHex(ToLower(candidate)))
  }

  lemma LowerKeepsHex(s: string)
    requires AllHex(s)
    ensures AllHex(ToLower(s)) && ToLower(ToLower(s)) == ToLower(s)
  {
  }

  /** What is accepted is what generation prints, in either case, and nothing else. */
  lemma ValidateAcceptsTheGenerated(c: Config, i: Input, candidate: string)
    requires Assumed(c) && Generate(c, i).Ok?
    ensures Validate(c, i, candidate) == Ok(ToLower(candidate) == Generate(c, i).value)
  {
    GeneratesHexIff(c, i);
    hide Generate;
    var expected := Generate(c, i).value;
    if WellFormed(candidate) {
      LowerKeepsHex(candidate);
      SameBytesIffSameUpToCase(expected, ToLower(candidate));
    } else if ToLower(candidate) == expected {
      LowerWasHex(candidate);
    }
  }

  /**
   A cryptogram accepted for two inputs means the truncated HMACs agree; and then the inputs
   carry the same, or HMAC has collided.  Likewise for what reaches the two key derivations.
   So an altered amount, currency, merchant reference, nonce or counter needs a collision.
   */
  lemma OneCryptogramNeedsACollision(c: Config, i: Input, j: Input, candidate: string)
    requires Assumed(c) && NulFree(i) && NulFree(j)
    requires Validate(c, i, candidate) == Ok(true) && Validate(c, j, candidate) == Ok(true)
    ensures var seed := FromHex(c.seedHex);
            var k1, k2, m1, m2 := CardKey(c, seed, i), CardKey(c, seed, j), Message(i), Message(j);
            && k1.Ok? && k2.Ok? && m1.Ok? && m2.Ok?
            && c.hmac(k1.value, m1.value)[..16] == c.hmac(k2.value, m2.value)[..16]
            && (m1 == m2 ==> Carried(i) == Carried(j))
            && (CardInfo(i.cardId, i.atc) == CardInfo(j.cardId, j.atc) ==> i.cardId == j.cardId)
            && (Utf8.Encode(i.bin) == Utf8.Encode(j.bin) ==> i.bin == j.bin)
  {
    AcceptedIsTruncatedMac(c, i, candidate);
    AcceptedIsTruncatedMac(c, j, candidate);
    hide CardKey, Message, Validate, CardInfo, Utf8.Encode;
    MessageIsInjective(i, j);
    InfoOfKey(c, FromHex(c.seedHex), i);
    CardInfoIsInjective(i.cardId, i.atc, j.cardId, j.atc);
    if Utf8.Encode(i.bin) == Utf8.Encode(j.bin) {
      SameText(i.bin, j.bin);
    }
  }

  lemma InfoOfKey(c: Config, seed: bytes, i: Input)
    requires CardKey(c, seed, i).Ok?
    ensures CardInfo(i.cardId, i.atc).Ok?
  {
  }

  lemma AcceptedIsTruncatedMac(c: Config, i: Input, candidate: string)
    requires Assumed(c) && Validate(c, i, candidate) == Ok(true)
    ensures var k, m := CardKey(c, FromHex(c.seedHex), i), Message(i);
            && k.Ok? && m.Ok?
            && |c.hmac(k.value, m.value)| == 32
            && c.hmac(k.value, m.value)[..16] == FromHex(ToLower(candidate))
  {
    hide CardKey, Message, ToHex, FromHex;
    var k, m := CardKey(c, FromHex(c.seedHex), i), Message(i);
    var mac := c.hmac(k.value, m.value);
    assert |mac| == 32;
    FromHexUndoesToHex(mac[..16]);
  }

  lemma LowerWasHex(s: string)
    requires AllHex(ToLower(s))
    ensures AllHex(s)
  {
    forall k | 0 <= k < |s|
      ensures IsHexDigit(s[k])
    {
      assert IsHexDigit(ToLower(s)[k]);
    }
  }

  // --- the card's key --------------------------------------------------------------------------

  /** The issuer key of a BIN, and a card's key under it, spelled out. */
  function Issuer(c: Config, bin: string): bytes {
    c.hkdf(FromHex(c.seedHex), Utf8.Encode("vera-vimk-v1"), Utf8.Encode(bin))
  }

  /** The key is derived from the BIN's issuer key, and from the card id and the counter's four bytes. */
  lemma CardKeyIs(c: Config, i: Input) returns (counter: bytes)
    requires 0 <= i.atc < 0x1_0000_0000
    ensures |counter| == 4 && BigEndian(counter) == i.atc
    ensures CardKey(c, FromHex(c.seedHex), i)
            == Ok(c.hkdf(Issuer(c, i.bin), Utf8.Encode("vera-card-ac"), Utf8.Encode(i.cardId) + counter))
  {
    hide Utf8.Encode, FromHex;
    counter := BE(i.atc, 4);
    assert Pow256(4) == 0x1_0000_0000;
    BigEndianUndoesBE(i.atc, 4);
  }

  /** HKDF keeps input keys and infos apart, under each salt. */
  ghost predicate Separating(c: Config) {
    forall k: bytes, l: bytes, salt: bytes, x: bytes, y: bytes |
      c.hkdf(k, salt, x) == c.hkdf(l, salt, y) :: k == l && x == y
  }

  /** Then two inputs have one card key exactly if BIN, card id and counter agree. */
  lemma CardKeysIff(c: Config, i: Input, j: Input)
    requires Separating(c) && 0 <= i.atc < 0x1_0000_0000 && 0 <= j.atc < 0x1_0000_0000
    ensures CardKey(c, FromHex(c.seedHex), i) == CardKey(c, FromHex(c.seedHex), j)
            <==> i.bin == j.bin && i.cardId == j.cardId && i.atc == j.atc
  {
    var t := CardKeyIs(c, i);
    var u := CardKeyIs(c, j);
    KeysApart(c, i, t, j, u);
    hide Utf8.Encode, FromHex, CardKey, Separating;
    if i.bin == j.bin && i.cardId == j.cardId && i.atc == j.atc {
      BigEndianTells(t, u);
    }
  }

  lemma KeysApart(c: Config, i: Input, t: bytes, j: Input, u: bytes)
    requires Separating(c) && |t| == |u| == 4
    ensures c.hkdf(Issuer(c, i.bin), Utf8.Encode("vera-card-ac"), Utf8.Encode(i.cardId) + t)
            == c.hkdf(Issuer(c, j.bin), Utf8.Encode("vera-card-ac"), Utf8.Encode(j.cardId) + u)
            ==> i.bin == j.bin && i.cardId == j.cardId && t == u
  {
    hide Utf8.Encode, FromHex;
    var salt, x, y := Utf8.Encode("vera-card-ac"), Utf8.Encode(i.cardId) + t, Utf8.Encode(j.cardId) + u;
    if c.hkdf(Issuer(c, i.bin), salt, x) == c.hkdf(Issuer(c, j.bin), salt, y) {
      assert Issuer(c, i.bin) == Issuer(c, j.bin) && x == y;
      SplitBack(Utf8.Encode(i.cardId), t, Utf8.Encode(j.cardId), u);
      SameText(i.cardId, j.cardId);
      SameText(i.bin, j.bin);
    }
  }

  /**
   A cryptogram accepted for two different cards, BINs or counters needs a collision: of the first
   HKDF, of the second, or of the truncated HMAC.
   */
  lemma OtherCardNeedsACollision(c: Config, i: Input, j: Input, candidate: string)
    requires Assumed(c) && Validate(c, i, candidate) == Ok(true) && Validate(c, j, candidate) == Ok(true)
    requires i.bin != j.bin || i.cardId != j.cardId || i.atc != j.atc
    ensures CardInfo(i.cardId, i.atc).Ok? && CardInfo(j.cardId, j.atc).Ok? && Message(i).Ok? && Message(j).Ok?
    ensures var x, y, m, n := CardInfo(i.cardId, i.atc).value, CardInfo(j.cardId, j.atc).value,
                              Message(i).value, Message(j).value;
            var salt, v, w := Utf8.Encode("vera-card-ac"), Issuer(c, i.bin), Issuer(c, j.bin);
            var k, l := c.hkdf(v, salt, x), c.hkdf(w, salt, y);
            || (i.bin != j.bin && v == w)
            || ((v, x) != (w, y) && k == l)
            || ((k, m) != (l, n) && c.hmac(k, m)[..16] == c.hmac(l, n)[..16])
  {
    AcceptedIsTruncatedMac(c, i, candidate);
    AcceptedIsTruncatedMac(c, j, candidate);
    InfoOfKey(c, FromHex(c.seedHex), i);
    InfoOfKey(c, FromHex(c.seedHex), j);
    CardInfoIsInjective(i.cardId, i.atc, j.cardId, j.atc);
    KeyOfInfo(c, i);
    KeyOfInfo(c, j);
    hide CardKey, Message, Validate, CardInfo, Utf8.Encode, FromHex;
  }

  lemma KeyOfInfo(c: Config, i: Input)
    requires CardInfo(i.cardId, i.atc).Ok?
    ensures CardKey(c, FromHex(c.seedHex), i)
            == Ok(c.hkdf(Issuer(c, i.bin), Utf8.Encode("vera-card-ac"), CardInfo(i.cardId, i.atc).value))
  {
    hide Utf8.Encode, FromHex, BE;
  }

  /** Validation throws exactly on a well-formed candidate for integers that do not fit. */
  lemma ValidateThrowsIff(c: Config, i: Input, candidate: string)
    requires Assumed(c)
    ensures Validate(c, i, candidate).Err? <==>
              && |candidate| == 32 && (forall k | 0 <= k < 32 :: IsHexDigit(candidate[k]))
              && !(0 <= i.atc < 0x1_0000_0000 && 0 <= i.amount < 0x1_0000_0000_0000_0000)
  {
    GeneratesHexIff(c, i);
    assert Pow256(4) == 0x1_0000_0000;
    assert Pow256(8) == 0x1_0000_0000 * Pow256(4) by {
      assert Pow256(8) == 256 * 256 * 256 * 256 * Pow256(4);
    }
    hide Generate, FromHex;
  }

  /** The module's functions with its cached seed. */
  class ArqcService {
    const c: Config
    var seedBuffer: Option<bytes>

    ghost predicate Valid()
      reads this
    {
      Assumed(c) && (seedBuffer.Some? ==> seedBuffer.value == FromHex(c.seedHex))
    }

    constructor (c: Config)
      requires Assumed(c)
      ensures Valid() && this.c == c
    {
      this.c, seedBuffer := c, None;
    }

    method GetSeed() returns (seed: bytes)
      requires Valid()
      modifies this`seedBuffer
      ensures Valid() && seed == FromHex(c.seedHex) && seedBuffer == Some(seed)
    {
      if seedBuffer.None? {
        seedBuffer := Some(FromHex(c.seedHex));
      }
      seed := seedBuffer.value;
    }

    /** Node's writeUInt32BE or writeBigUInt64BE, over the whole of a buffer. */
    method WriteUIntBE(buf: array<byte>, n: int) returns (ok: bool)
      modifies buf
      ensures ok <==> UIntBE(n, buf.Length).Ok?
      ensures ok ==> buf[..] == UIntBE(n, buf.Length).value
    {
      if n < 0 || n >= Pow256(buf.Length) {
        return false;
      }
      var rest, k := n, buf.Length;
      while k > 0
        invariant 0 <= k <= buf.Length && rest >= 0
        invariant BE(n, buf.Length) == BE(rest, k) + buf[k..]
      {
        k := k - 1;
        buf[k] := rest % 256;
        assert buf[k..] == [buf[k]] + buf[k + 1..];
        rest := rest / 256;
      }
      return true;
    }

    method BuildMessage(i: Input) returns (r: Result<bytes, OutOfRange>)
      ensures r == Message(i)
    {
      var atcBuf := new byte[4](_ => 0);
      var ok := WriteUIntBE(atcBuf, i.atc);
      if !ok {
        return Err(OutOfRange);
      }
      var amountBuf := new byte[8](_ => 0);
      ok := WriteUIntBE(amountBuf, i.amount);
      if !ok {
        return Err(OutOfRange);
      }
      r := Ok(amountBuf[..] + ([0] + (Utf8.Encode(i.currency) + [0] + (Utf8.Encode(i.merchantRef) + [0]
              + (Utf8.Encode(i.nonce) + ([0] + atcBuf[..]))))));
    }

    method DeriveKCard(bin: string, cardId: string, atc: int) returns (r: Result<bytes, OutOfRange>)
      requires Valid()
      modifies this`seedBuffer
      ensures Valid()
      ensures forall i: Input | i.bin == bin && i.cardId == cardId && i.atc == atc ::
                r == CardKey(c, FromHex(c.seedHex), i)
    {
      var seed := GetSeed();
      var vimk := c.hkdf(seed, VIMK_SALT, Utf8.Encode(bin));
      var atcBuf := new byte[4](_ => 0);
      var ok := WriteUIntBE(atcBuf, atc);
      if !ok {
        return Err(OutOfRange);
      }
      r := Ok(c.hkdf(vimk, KCARD_SALT, Utf8.Encode(cardId) + atcBuf[..]));
    }

    method GenerateArqc(i: Input) returns (r: Result<string, OutOfRange>)
      requires Valid()
      modifies this`seedBuffer
      ensures Valid() && r == Generate(c, i)
    {
      hide Message, CardKey;
      var kCard := DeriveKCard(i.bin, i.cardId, i.atc);
      var msg := BuildMessage(i);
      if kCard.Err? || msg.Err? {
        return Err(OutOfRange);
      }
      var mac := c.hmac(kCard.value, msg.value);
      assert |mac| == 32;
      r := Ok(ToHex(mac[..16]));
    }

    method ValidateArqc(i: Input, candidate: string) returns (r: Result<bool, OutOfRange>)
      requires Valid()
      modifies this`seedBuffer
      ensures Valid() && r == Validate(c, i, candidate)
    {
      if !WellFormed(candidate) {
        return Ok(false);
      }
      var expected := GenerateArqc(i);
      if expected.Err? {
        return Err(expected.error);
      }
      r := Ok(FromHex(expected.value) == FromHex(ToLower(candidate)));
    }
  }
}
