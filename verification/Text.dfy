/** The character classes the services' regular expressions use. */
module Text {

  /** JavaScript's \s, which is also what String.prototype.trim removes. */
  predicate IsSpace(c: char) {
    || c in {'\t', '\n', '\U{000B}', '\U{000C}', '\r', ' ', '\U{00A0}', '\U{1680}', '\U{2028}', '\U{2029}',
             '\U{202F}', '\U{205F}', '\U{3000}', '\U{FEFF}'}
    || '\U{2000}' <= c <= '\U{200A}'
  }

  /** By code point: the control characters, the spaces and the byte order mark. */
  lemma SpacesAre(c: char)
    ensures IsSpace(c) <==>
              var u := c as int;
              || 0x09 <= u <= 0x0D || u == 0x20 || u == 0xA0 || u == 0x1680 || 0x2000 <= u <= 0x200A
              || u == 0x2028 || u == 0x2029 || u == 0x202F || u == 0x205F || u == 0x3000 || u == 0xFEFF
  {
  }

  predicate IsDigit(c: char) { '0' <= c <= '9' }

  predicate IsLower(c: char) { 'a' <= c <= 'z' }

  predicate IsUpper(c: char) { 'A' <= c <= 'Z' }

  predicate AllDigits(s: string) { forall i | 0 <= i < |s| :: IsDigit(s[i]) }

  function DigitValue(c: char): (d: nat)
    requires IsDigit(c)
    ensures d <= 9
  {
    c as int - '0' as int
  }

  function LowerChar(ch: char): char {
    if IsUpper(ch) then (ch as int + 32) as char else ch
  }

  function UpperChar(ch: char): char {
    if IsLower(ch) then (ch as int - 32) as char else ch
  }

  /** toLowerCase, on the letters A to Z. */
  function ToLower(s: string): (t: string)
    ensures |t| == |s|
  {
    seq(|s|, i requires 0 <= i < |s| => LowerChar(s[i]))
  }

  /** toUpperCase, on the letters a to z. */
  function ToUpper(s: string): (t: string)
    ensures |t| == |s|
  {
    seq(|s|, i requires 0 <= i < |s| => UpperChar(s[i]))
  }

  /** The characters of s that satisfy p, in order. */
  function Keep(s: string, p: char -> bool): (t: string)
    ensures forall i | 0 <= i < |t| :: p(t[i])
    ensures |t| <= |s|
  {
    if s == [] then []
    else if p(s[0]) then [s[0]] + Keep(s[1..], p)
    else Keep(s[1..], p)
  }

  lemma {:induction false} KeepJoins(s: string, t: string, p: char -> bool)
    ensures Keep(s + t, p) == Keep(s, p) + Keep(t, p)
  {
    if s == [] {
      assert s + t == t;
    } else {
      assert (s + t)[0] == s[0] && (s + t)[1..] == s[1..] + t;
      KeepJoins(s[1..], t, p);
    }
  }

  lemma KeepMiddle(a: string, c: char, b: string, p: char -> bool)
    requires p(c)
    ensures Keep(a + [c] + b, p) == Keep(a, p) + [c] + Keep(b, p)
  {
    KeepJoins(a + [c], b, p);
    KeepJoins(a, [c], p);
    assert [c][1..] == [];
  }

  /** If what p keeps is all of class q, then q alone keeps it. */
  lemma {:induction false} KeepAgrees(s: string, p: char -> bool, q: char -> bool)
    requires forall c | q(c) :: p(c)
    requires forall c | c in Keep(s, p) :: q(c)
    ensures Keep(s, q) == Keep(s, p)
  {
    if s != [] {
      if p(s[0]) {
        assert Keep(s, p) == [s[0]] + Keep(s[1..], p);
        assert s[0] in Keep(s, p);
        forall c | c in Keep(s[1..], p)
          ensures q(c)
        {
          assert c in Keep(s, p);
        }
      }
      KeepAgrees(s[1..], p, q);
    }
  }

  lemma {:induction false} KeepAll(s: string, p: char -> bool)
    requires forall i | 0 <= i < |s| :: p(s[i])
    ensures Keep(s, p) == s
  {
    if s != [] {
      KeepAll(s[1..], p);
    }
  }

  /** The length of the longest prefix whose characters all fail p. */
  function Until(s: string, p: char -> bool): (n: nat)
    ensures n <= |s| && (forall i | 0 <= i < n :: !p(s[i])) && (n < |s| ==> p(s[n]))
  {
    if s == [] || p(s[0]) then 0 else 1 + Until(s[1..], p)
  }

  lemma UntilFirst(a: string, c: char, b: string, p: char -> bool)
    requires p(c) && forall x | x in a :: !p(x)
    ensures Until(a + [c] + b, p) == |a|
  {
    var s := a + [c] + b;
    forall i | 0 <= i < |a|
      ensures !p(s[i])
    {
      assert s[i] == a[i] && a[i] in a;
    }
    assert p(s[|a|]);
  }

  lemma UntilNone(a: string, p: char -> bool)
    requires forall x | x in a :: !p(x)
    ensures Until(a, p) == |a|
  {
    forall i | 0 <= i < |a|
      ensures !p(a[i])
    {
      assert a[i] in a;
    }
  }
}
