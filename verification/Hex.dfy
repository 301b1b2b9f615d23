/** Hexadecimal as Node prints and reads it, and decimal integers as JavaScript does. */
module Hex {
  import opened Prelude
  import opened Text
  import opened Bytes

  predicate IsHexDigit(c: char) { IsDigit(c) || 'a' <= c <= 'f' || 'A' <= c <= 'F' }

  predicate AllHex(s: string) { forall i | 0 <= i < |s| :: IsHexDigit(s[i]) }

  function HexValue(c: char): (v: nat)
    requires IsHexDigit(c)
    ensures v < 16
  {
    if IsDigit(c) then DigitValue(c) else if IsLower(c) then c as int - 87 else c as int - 55
  }

  function HexDigit(v: nat): (c: char)
    requires v < 16
    ensures IsHexDigit(c) && HexValue(c) == v && !IsUpper(c)
  {
    if v < 10 then ('0' as int + v) as char else ('a' as int + (v - 10)) as char
  }

  /** buf.toString('hex') */
  function ToHex(b: bytes): (s: string)
    ensures |s| == 2 * |b| && AllHex(s)
    ensures forall i | 0 <= i < |s| :: !IsUpper(s[i])
  {
    if b == [] then [] else [HexDigit(b[0] / 16), HexDigit(b[0] % 16)] + ToHex(b[1..])
  }

  /** Buffer.from(s, 'hex'): it stops at the first pair that is not two hex digits. */
  function FromHex(s: string): bytes {
    if |s| < 2 || !IsHexDigit(s[0]) || !IsHexDigit(s[1]) then []
    else [16 * HexValue(s[0]) + HexValue(s[1])] + FromHex(s[2..])
  }

  lemma {:induction false} FromHexUndoesToHex(b: bytes)
    ensures FromHex(ToHex(b)) == b
  {
    if b != [] {
      var s := ToHex(b);
      assert s[2..] == ToHex(b[1..]);
      FromHexUndoesToHex(b[1..]);
      assert 16 * (b[0] / 16) + b[0] % 16 == b[0];
    }
  }

  /** And the other way: an even number of hex digits comes back in lower case. */
  lemma {:induction false} ToHexUndoesFromHex(s: string)
    requires |s| % 2 == 0 && AllHex(s)
    ensures ToHex(FromHex(s)) == ToLower(s)
  {
    if s != [] {
      ToHexUndoesFromHex(s[2..]);
      PairRoundTrip(s[0], s[1]);
      ToHexOfPair(16 * HexValue(s[0]) + HexValue(s[1]), FromHex(s[2..]));
      LowerOfPair(s);
      hide ToHex, ToLower, HexDigit, HexValue, LowerChar;
    }
  }

  lemma ToHexOfPair(v: byte, rest: bytes)
    ensures ToHex([v] + rest) == [HexDigit(v / 16), HexDigit(v % 16)] + ToHex(rest)
  {
    assert ([v] + rest)[1..] == rest;
  }

  lemma LowerOfPair(s: string)
    requires |s| >= 2
    ensures ToLower(s) == [LowerChar(s[0]), LowerChar(s[1])] + ToLower(s[2..])
  {
  }

  lemma PairRoundTrip(a: char, b: char)
    requires IsHexDigit(a) && IsHexDigit(b)
    ensures var v := 16 * HexValue(a) + HexValue(b);
            v < 256 && HexDigit(v / 16) == LowerChar(a) && HexDigit(v % 16) == LowerChar(b)
  {
    var v := 16 * HexValue(a) + HexValue(b);
    assert v / 16 == HexValue(a) && v % 16 == HexValue(b);
  }

  /** Two even-length hex strings spell the same bytes exactly if they agree up to case. */
  lemma SameBytesIffSameUpToCase(s: string, t: string)
    requires |s| % 2 == 0 && AllHex(s) && |t| % 2 == 0 && AllHex(t)
    ensures FromHex(s) == FromHex(t) <==> ToLower(s) == ToLower(t)
  {
    ToHexUndoesFromHex(s);
    ToHexUndoesFromHex(t);
    FromHexUndoesToHex(FromHex(s));
    FromHexUndoesToHex(FromHex(t));
  }

  // --- decimal ---------------------------------------------------------------------------

  function Digits(n: nat): (s: string)
    ensures |s| > 0 && AllDigits(s)
  {
    if n < 10 then [HexDigit(n)] else Digits(n / 10) + [HexDigit(n % 10)]
  }

  /** `${n}` for an integer n. */
  function Decimal(n: int): (s: string)
    ensures |s| > 0
    ensures forall c | c in s :: IsDigit(c) || c == '-'
  {
    if n < 0 then "-" + Digits(-n) else Digits(n)
  }

  function Value(s: string): nat
    requires AllDigits(s)
  {
    if s == [] then 0 else 10 * Value(s[..|s| - 1]) + DigitValue(s[|s| - 1])
  }

  /** The digits s starts with. */
  function LeadingDigits(s: string): (d: string)
    ensures AllDigits(d) && d <= s
    ensures |d| < |s| ==> !IsDigit(s[|d|])
  {
    if s == [] || !IsDigit(s[0]) then [] else [s[0]] + LeadingDigits(s[1..])
  }

  function Unsigned(s: string): Option<int> {
    var d := LeadingDigits(s);
    if d == [] then None else Some(Value(d))
  }

  /** Number.parseInt(s, 10) on a string that does not start with white space; None is NaN. */
  function ParseInt(s: string): Option<int> {
    if s == [] then None
    else if s[0] == '-' then (var u := Unsigned(s[1..]); if u.None? then None else Some(-u.value))
    else if s[0] == '+' then Unsigned(s[1..])
    else Unsigned(s)
  }

  lemma {:induction false} ValueOfDigits(n: nat)
    ensures Value(Digits(n)) == n
  {
    if n < 10 {
      assert Digits(n)[..0] == [];
    } else {
      ValueOfDigits(n / 10);
      var s := Digits(n);
      assert s[..|s| - 1] == Digits(n / 10);
    }
  }

  lemma {:induction false} AllLeading(s: string)
    requires AllDigits(s)
    ensures LeadingDigits(s) == s
  {
    if s != [] {
      AllLeading(s[1..]);
    }
  }

  lemma ParseUndoesPrint(n: int)
    ensures ParseInt(Decimal(n)) == Some(n)
  {
    var m := if n < 0 then -n else n;
    ValueOfDigits(m);
    AllLeading(Digits(m));
    if n < 0 {
      assert Decimal(n)[1..] == Digits(m);
    }
  }

  /** A sign or none, digits, and then no digit. */
  predicate Numeral(s: string, sign: string, digits: string, rest: string) {
    && s == sign + (digits + rest) && sign in {"", "-", "+"}
    && digits != "" && AllDigits(digits) && (rest != "" ==> !IsDigit(rest[0]))
  }

  lemma {:induction false} LeadingOf(digits: string, rest: string)
    requires AllDigits(digits) && (rest != "" ==> !IsDigit(rest[0]))
    ensures LeadingDigits(digits + rest) == digits
  {
    if digits == "" {
      assert digits + rest == rest;
    } else {
      assert (digits + rest)[0] == digits[0] && (digits + rest)[1..] == digits[1..] + rest;
      LeadingOf(digits[1..], rest);
    }
  }

  lemma UnsignedIff(s: string, n: int)
    ensures Unsigned(s) == Some(n)
            <==> exists digits: string, rest: string :: Numeral(s, "", digits, rest) && n == Value(digits)
  {
    var d := LeadingDigits(s);
    if d != "" {
      assert Numeral(s, "", d, s[|d|..]) by {
        assert s == "" + (d + s[|d|..]);
      }
    }
    forall digits: string, rest: string | Numeral(s, "", digits, rest)
      ensures digits == d
    {
      assert s == digits + rest;
      LeadingOf(digits, rest);
    }
  }

  /** Any string parses to exactly the number it starts with, what follows the digits being dropped. */
  lemma ParseIntIff(s: string, n: int)
    ensures ParseInt(s) == Some(n)
            <==> exists sign: string, digits: string, rest: string ::
                   Numeral(s, sign, digits, rest) && (if sign == "-" then -n else n) == Value(digits)
  {
    hide Unsigned, Value;
    if s != "" && (s[0] == '-' || s[0] == '+') {
      var sign := s[..1];
      assert sign == "-" || sign == "+";
      UnsignedIff(s[1..], n);
      UnsignedIff(s[1..], -n);
      forall digits: string, rest: string
        ensures Numeral(s, sign, digits, rest) <==> Numeral(s[1..], "", digits, rest)
      {
        SignedNumeral(s, sign, digits, rest);
      }
      forall other: string, digits: string, rest: string | Numeral(s, other, digits, rest)
        ensures other == sign
      {
      }
    } else {
      UnsignedIff(s, n);
      forall other: string, digits: string, rest: string | Numeral(s, other, digits, rest)
        ensures other == ""
      {
      }
    }
  }

  lemma SignedNumeral(s: string, sign: string, digits: string, rest: string)
    requires s != "" && sign == s[..1] && (sign == "-" || sign == "+")
    ensures Numeral(s, sign, digits, rest) <==> Numeral(s[1..], "", digits, rest)
  {
    assert "" + (digits + rest) == digits + rest;
    if s == sign + (digits + rest) {
      assert s[1..] == digits + rest;
    }
    if s[1..] == digits + rest {
      assert s == sign + s[1..];
    }
  }

  /** The digits themselves. */
  lemma HexDigitIs(v: nat)
    requires v < 16
    ensures HexDigit(v) == "0123456789abcdef"[v]
  {
  }
}
