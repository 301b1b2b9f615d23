/**
 The two Luhn checks, the vault's (services/vault/src/vault/fingerprint.ts) and the payment
 page's (services/pay/frontend/src/utils/luhn.ts), against the weighted sum of ISO/IEC
 7812-1 Annex B and what that sum detects.
 */
module Luhn {
  import opened Text

  /** What replace(/[\s-]/g, '') leaves. */
  predicate Significant(c: char) { !IsSpace(c) && c != '-' }

  function Strip(pan: string): string { Keep(pan, Significant) }

  function Weight(d: nat, doubled: bool): (w: nat)
    requires d <= 9
    ensures w <= 9
  {
    if !doubled then d else if 2 * d > 9 then 2 * d - 9 else 2 * d
  }

  /** The weighted sum, from the right; every second digit is doubled. */
  function WeightedSum(digits: string, doubled: bool): nat
    requires AllDigits(digits)
  {
    if digits == [] then 0
    else
      var n := |digits| - 1;
      Weight(DigitValue(digits[n]), doubled) + WeightedSum(digits[..n], !doubled)
  }

  predicate Checks(digits: string) {
    AllDigits(digits) && 12 <= |digits| <= 19 && WeightedSum(digits, false) % 10 == 0
  }

  function DigitSum(n: nat): nat { if n < 10 then n else n % 10 + DigitSum(n / 10) }

  /**
   Annex B, read forwards from the k-th digit: the check digit at the end and every second digit
   before it count once, and of the others the digits of their doubles.
   */
  function AnnexB(digits: string, k: nat): nat
    requires AllDigits(digits) && k <= |digits|
    decreases |digits| - k
  {
    if k == |digits| then 0
    else
      var d := DigitValue(digits[k]);
      (if (|digits| - 1 - k) % 2 == 0 then d else DigitSum(2 * d)) + AnnexB(digits, k + 1)
  }

  lemma {:induction false} SumFromBothEnds(digits: string, n: nat)
    requires AllDigits(digits) && n <= |digits|
    ensures WeightedSum(digits[..n], (|digits| - n) % 2 == 1) + AnnexB(digits, n) == AnnexB(digits, 0)
  {
    if n > 0 {
      SumFromBothEnds(digits, n - 1);
      assert digits[..n][..n - 1] == digits[..n - 1];
      assert Weight(DigitValue(digits[n - 1]), true) == DigitSum(2 * DigitValue(digits[n - 1]));
    }
  }

  /** What checks: twelve to nineteen digits whose Annex B sum is a multiple of ten. */
  lemma ChecksIff(digits: string)
    ensures Checks(digits) <==>
              && (forall i | 0 <= i < |digits| :: '0' <= digits[i] <= '9')
              && 12 <= |digits| <= 19 && AnnexB(digits, 0) % 10 == 0
  {
    if AllDigits(digits) {
      SumFromBothEnds(digits, |digits|);
      assert digits[..|digits|] == digits;
    }
  }

  /** A space or a dash, wherever it stands, is dropped, and any other character stays in its place. */
  lemma StripDropsSpacesAndDashes(a: string, c: char, b: string)
    ensures Strip(a + [c] + b)
            == if c == '-' || IsSpace(c) then Strip(a + b) else Strip(a) + [c] + Strip(b)
  {
    KeepOne(c);
    hide Keep, IsSpace;
    KeepJoins(a + [c], b, Significant);
    KeepJoins(a, [c], Significant);
    KeepJoins(a, b, Significant);
    assert Strip(a) + [] + Strip(b) == Strip(a) + Strip(b);
  }

  lemma KeepOne(c: char)
    ensures Keep([c], Significant) == if Significant(c) then [c] else []
  {
    assert [c][1..] == [];
  }

  /** The loop both functions share. */
  method Sum(digits: string) returns (sum: nat)
    requires AllDigits(digits)
    ensures sum == WeightedSum(digits, false)
  {
    sum := 0;
    var alt := false;
    var i := |digits| - 1;
    assert digits[..i + 1] == digits;
    while i >= 0
      invariant -1 <= i < |digits|
      invariant sum + WeightedSum(digits[..i + 1], alt) == WeightedSum(digits, false)
    {
      var d := DigitValue(digits[i]);
      if alt {
        d := d * 2;
        if d > 9 {
          d := d - 9;
        }
      }
      assert digits[..i + 1][..i] == digits[..i];
      sum := sum + d;
      alt := !alt;
      i := i - 1;
    }
  }

  /** The vault's check. */
  method LuhnValid(pan: string) returns (ok: bool)
    ensures ok <==> Checks(Strip(pan))
  {
    var digits := Strip(pan);
    if !AllDigits(digits) || |digits| < 12 || |digits| > 19 {
      return false;
    }
    var sum := Sum(digits);
    return sum % 10 == 0;
  }

  /** The payment page's check: it drops every non-digit instead of refusing it. */
  method FrontendLuhnValid(pan: string) returns (ok: bool)
    ensures ok <==> Checks(Keep(pan, IsDigit))
  {
    var digits := Keep(pan, IsDigit);
    if |digits| < 12 || |digits| > 19 {
      return false;
    }
    var sum := Sum(digits);
    return sum % 10 == 0;
  }

  /**
   The backend accepts exactly what the frontend accepts and that holds nothing but digits,
   spaces and dashes; so backend acceptance implies frontend acceptance.
   */
  lemma BackendIsStricter(pan: string)
    ensures Checks(Strip(pan)) <==> Checks(Keep(pan, IsDigit)) && AllDigits(Strip(pan))
  {
    if AllDigits(Strip(pan)) {
      KeepAgrees(pan, Significant, IsDigit);
    }
  }

  lemma WeightsAreDistinct(a: nat, b: nat, doubled: bool)
    requires a <= 9 && b <= 9
    ensures Weight(a, doubled) == Weight(b, doubled) <==> a == b
  {
  }

  /** The sum without one digit: what the digit's weight is added to. */
  lemma {:induction false} SumSplits(digits: string, i: nat, c: char, doubled: bool) returns (rest: nat, d: bool)
    requires AllDigits(digits) && i < |digits| && IsDigit(c)
    ensures WeightedSum(digits, doubled) == rest + Weight(DigitValue(digits[i]), d)
    ensures AllDigits(digits[i := c]) && WeightedSum(digits[i := c], doubled) == rest + Weight(DigitValue(c), d)
  {
    var n := |digits| - 1;
    if i == n {
      assert digits[i := c][..n] == digits[..n];
      rest, d := WeightedSum(digits[..n], !doubled), doubled;
    } else {
      assert digits[i := c][..n] == digits[..n][i := c];
      rest, d := SumSplits(digits[..n], i, c, !doubled);
      rest := rest + Weight(DigitValue(digits[n]), doubled);
    }
  }

  /** Changing any one digit of an accepted number is rejected. */
  lemma OneDigitIsDetected(digits: string, i: nat, c: char)
    requires Checks(digits) && i < |digits| && IsDigit(c) && c != digits[i]
    ensures !Checks(digits[i := c])
  {
    var rest, d := SumSplits(digits, i, c, false);
    var a, b := Weight(DigitValue(digits[i]), d), Weight(DigitValue(c), d);
    WeightsAreDistinct(DigitValue(digits[i]), DigitValue(c), d);
    SameResidue(rest, a, b);
  }

  lemma SameResidue(rest: nat, a: nat, b: nat)
    requires a <= 9 && b <= 9 && a != b
    ensures (rest + a) % 10 == 0 ==> (rest + b) % 10 != 0
  {
  }

  /** The same of the number as typed, with its spaces and dashes. */
  lemma OneTypedDigitIsDetected(pan: string, i: nat, c: char)
    requires Checks(Strip(pan)) && i < |pan| && IsDigit(pan[i]) && IsDigit(c) && c != pan[i]
    ensures !Checks(Strip(pan[i := c]))
  {
    var a, b := pan[..i], pan[i + 1..];
    assert pan == a + [pan[i]] + b && pan[i := c] == a + [c] + b;
    KeepMiddle(a, pan[i], b, Significant);
    KeepMiddle(a, c, b, Significant);
    ReplaceMiddle(Strip(a), pan[i], c, Strip(b));
    OneDigitIsDetected(Strip(pan), |Strip(a)|, c);
  }

  lemma ReplaceMiddle(a: string, c: char, d: char, b: string)
    ensures (a + [c] + b)[|a|] == c && (a + [c] + b)[|a| := d] == a + [d] + b
  {
  }

  function Swapped(digits: string, i: nat): string
    requires i + 1 < |digits|
  {
    digits[i := digits[i + 1]][i + 1 := digits[i]]
  }

  lemma {:induction false} SwapSplits(digits: string, i: nat, doubled: bool) returns (rest: nat, d: bool)
    requires AllDigits(digits) && i + 1 < |digits|
    ensures var a, b := DigitValue(digits[i]), DigitValue(digits[i + 1]);
            && WeightedSum(digits, doubled) == rest + Weight(a, !d) + Weight(b, d)
            && AllDigits(Swapped(digits, i))
            && WeightedSum(Swapped(digits, i), doubled) == rest + Weight(b, !d) + Weight(a, d)
  {
    var n := |digits| - 1;
    var s := Swapped(digits, i);
    if i + 1 == n {
      assert s[..n][..i] == digits[..n][..i] && s[..n][i] == digits[n] && digits[..n][i] == digits[i];
      rest, d := WeightedSum(digits[..n][..i], doubled), doubled;
    } else {
      assert s[..n] == Swapped(digits[..n], i);
      rest, d := SwapSplits(digits[..n], i, !doubled);
      rest := rest + Weight(DigitValue(digits[n]), doubled);
    }
  }

  /** Swapping two adjacent different digits is rejected exactly unless they are 0 and 9. */
  lemma SwapIsDetectedUnless09(digits: string, i: nat)
    requires Checks(digits) && i + 1 < |digits| && digits[i] != digits[i + 1]
    ensures Checks(Swapped(digits, i)) <==> {digits[i], digits[i + 1]} == {'0', '9'}
  {
    var rest, d := SwapSplits(digits, i, false);
    var a, b := DigitValue(digits[i]), DigitValue(digits[i + 1]);
    SwapResidue(rest, a, b, d);
    assert {digits[i], digits[i + 1]} == {'0', '9'} <==> (a == 0 && b == 9) || (a == 9 && b == 0) by {
      if {digits[i], digits[i + 1]} == {'0', '9'} {
        assert '0' in {digits[i], digits[i + 1]} && '9' in {digits[i], digits[i + 1]};
        assert digits[i] in {'0', '9'} && digits[i + 1] in {'0', '9'};
      }
    }
  }

  /** What doubling adds to a digit's weight. */
  function Gain(d: nat): int
    requires d <= 9
  {
    Weight(d, true) - Weight(d, false)
  }

  lemma GainIsDistinctUnless09(a: nat, b: nat)
    requires a <= 9 && b <= 9 && a != b
    ensures -4 <= Gain(a) <= 4 && -4 <= Gain(b) <= 4
    ensures Gain(a) == Gain(b) <==> (a == 0 && b == 9) || (a == 9 && b == 0)
  {
  }

  lemma SmallShift(t: nat, shift: int)
    requires t % 10 == 0 && -8 <= shift <= 8
    ensures (t + shift) % 10 == 0 <==> shift == 0
  {
  }

  lemma SwapResidue(rest: nat, a: nat, b: nat, d: bool)
    requires a <= 9 && b <= 9 && a != b && (rest + Weight(a, !d) + Weight(b, d)) % 10 == 0
    ensures (rest + Weight(b, !d) + Weight(a, d)) % 10 == 0 <==> (a == 0 && b == 9) || (a == 9 && b == 0)
  {
    GainIsDistinctUnless09(a, b);
    SmallShift(rest + Weight(a, !d) + Weight(b, d), if d then Gain(a) - Gain(b) else Gain(b) - Gain(a));
  }

  function DigitChar(d: nat): (c: char)
    requires d <= 9
    ensures IsDigit(c) && DigitValue(c) == d
  {
    ('0' as int + d) as char
  }

  /** Every prefix has exactly one valid check digit. */
  lemma CheckDigitIsUnique(prefix: string) returns (check: char)
    requires AllDigits(prefix) && 11 <= |prefix| <= 18
    ensures IsDigit(check) && forall c | IsDigit(c) :: Checks(prefix + [c]) <==> c == check
  {
    var rest := WeightedSum(prefix, true);
    check := DigitChar((10 - rest % 10) % 10);
    forall c | IsDigit(c)
      ensures Checks(prefix + [c]) <==> c == check
    {
      assert (prefix + [c])[..|prefix|] == prefix;
      CheckResidue(rest, DigitValue(c));
    }
  }

  lemma CheckResidue(rest: nat, d: nat)
    requires d <= 9
    ensures (d + rest) % 10 == 0 <==> d == (10 - rest % 10) % 10
  {
  }
}
