/** UTF-8 (RFC 3629, section 3), and that it is unambiguous: Buffer.from(s, 'utf8'). */
module Utf8 {
  import opened Bytes

  /** A continuation byte, of the lowest six bits. */
  function Tail(c: nat): (b: byte)
    ensures 0x80 <= b < 0xC0
  {
    0x80 + c % 64
  }

  function EncodeChar(ch: char): (b: bytes)
    ensures |b| > 0
  {
    var c := ch as int;
    if c < 0x80 then [c]
    else if c < 0x800 then [0xC0 + c / 64, Tail(c)]
    else if c < 0x10000 then [0xE0 + c / 4096, Tail(c / 64), Tail(c)]
    else [0xF0 + c / 262144, Tail(c / 4096), Tail(c / 64), Tail(c)]
  }

  /** The number spelled in base 64 after a leading byte whose mark is taken off. */
  function Held(b: bytes, mark: byte): int
    requires b != []
  {
    if |b| == 1 then b[0] as int - mark as int else 64 * Held(b[..|b| - 1], mark) + (b[|b| - 1] as int - 0x80)
  }

  /** The table of section 3: how many bytes, what marks each of them, and the number they hold. */
  lemma CharLayout(ch: char)
    ensures var c, b := ch as int, EncodeChar(ch);
            var n := if c <= 0x7F then 1 else if c <= 0x7FF then 2 else if c <= 0xFFFF then 3 else 4;
            var mark: byte := if n == 1 then 0 else if n == 2 then 0xC0 else if n == 3 then 0xE0 else 0xF0;
            && |b| == n && (forall i | 1 <= i < n :: 0x80 <= b[i] < 0xC0)
            && mark <= b[0] < (if n == 1 then 0x80 else if n == 2 then 0xE0 else if n == 3 then 0xF0 else 0xF8)
            && Held(b, mark) == c
  {
    Quotients(ch as int);
    var b := EncodeChar(ch);
    var mark: byte := if |b| == 1 then 0 else if |b| == 2 then 0xC0 else if |b| == 3 then 0xE0 else 0xF0;
    assert |b| >= 2 ==> Held(b[..2], mark) == 64 * (b[0] as int - mark as int) + (b[1] as int - 0x80) by {
      assert |b| >= 2 ==> b[..2][..1] == [b[0]];
    }
    assert |b| >= 3 ==> b[..3][..2] == b[..2];
    assert b[..|b|] == b;
  }

  function Encode(s: string): bytes {
    if s == [] then [] else EncodeChar(s[0]) + Encode(s[1..])
  }

  lemma {:induction false} EncodeJoins(s: string, t: string)
    ensures Encode(s + t) == Encode(s) + Encode(t)
  {
    if s == [] {
      assert s + t == t;
    } else {
      assert (s + t)[0] == s[0] && (s + t)[1..] == s[1..] + t;
      EncodeJoins(s[1..], t);
    }
  }

  /** How many bytes the character takes that starts with b. */
  function Width(b: byte): nat { if b < 0x80 then 1 else if b < 0xE0 then 2 else if b < 0xF0 then 3 else 4 }

  lemma WidthOfChar(ch: char)
    ensures |EncodeChar(ch)| == Width(EncodeChar(ch)[0])
  {
  }

  lemma TailsAgree(c: nat, d: nat)
    requires Tail(c) == Tail(d) && c / 64 == d / 64
    ensures c == d
  {
  }

  lemma Quotients(c: nat)
    ensures c / 4096 == (c / 64) / 64 && c / 262144 == (c / 4096) / 64
  {
  }

  lemma CharsAgree(x: char, y: char)
    requires EncodeChar(x) == EncodeChar(y)
    ensures x == y
  {
    hide Tail;
    var c, d := x as int, y as int;
    WidthOfChar(x);
    WidthOfChar(y);
    var e, f := EncodeChar(x), EncodeChar(y);
    assert forall i | 0 <= i < |e| :: e[i] == f[i];
    Quotients(c);
    Quotients(d);
    if |e| == 4 {
      TailsAgree(c / 4096, d / 4096);
    }
    if |e| >= 3 {
      TailsAgree(c / 64, d / 64);
    }
    if |e| >= 2 {
      TailsAgree(c, d);
    }
  }

  lemma {:induction false} EncodeIsInjective(s: string, t: string)
    requires Encode(s) == Encode(t)
    ensures s == t
  {
    hide EncodeChar;
    if s != [] && t != [] {
      var e, f := EncodeChar(s[0]), EncodeChar(t[0]);
      WidthOfChar(s[0]);
      WidthOfChar(t[0]);
      assert Encode(s)[0] == e[0] && Encode(t)[0] == f[0];
      assert Encode(s)[..|e|] == e && Encode(t)[..|f|] == f;
      assert Encode(s)[|e|..] == Encode(s[1..]) && Encode(t)[|f|..] == Encode(t[1..]);
      CharsAgree(s[0], t[0]);
      EncodeIsInjective(s[1..], t[1..]);
      assert s == [s[0]] + s[1..] && t == [t[0]] + t[1..];
    }
  }

  /** A zero byte is only ever the NUL character. */
  lemma {:induction false} ZeroIsNul(s: string)
    ensures 0 in Encode(s) <==> '\0' in s
  {
    if s != [] {
      ZeroIsNul(s[1..]);
      assert 0 in EncodeChar(s[0]) <==> s[0] == '\0';
      assert s == [s[0]] + s[1..];
    }
  }
}
