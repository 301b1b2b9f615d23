/** When a concatenation determines its parts. */
module Sequences {

  lemma SplitFront<T>(a: seq<T>, x: seq<T>, b: seq<T>, y: seq<T>)
    requires a + x == b + y && |a| == |b|
    ensures a == b && x == y
  {
    assert (a + x)[..|a|] == a && (a + x)[|a|..] == x;
    assert (b + y)[..|b|] == b && (b + y)[|b|..] == y;
  }

  lemma SplitBack<T>(a: seq<T>, x: seq<T>, b: seq<T>, y: seq<T>)
    requires a + x == b + y && |x| == |y|
    ensures a == b && x == y
  {
    assert |a + x| == |b + y|;
    SplitFront(a, x, b, y);
  }

  lemma FirstSeparator<T>(a: seq<T>, x: seq<T>, b: seq<T>, y: seq<T>, sep: T)
    requires a + [sep] + x == b + [sep] + y && sep !in a && sep !in b
    ensures a == b && x == y
  {
    var s := a + [sep] + x;
    assert s[|a|] == sep && s[|b|] == sep;
    forall i | 0 <= i < |a|
      ensures s[i] != sep
    {
      assert s[i] == a[i];
    }
    forall i | 0 <= i < |b|
      ensures s[i] != sep
    {
      assert s[i] == b[i];
    }
    SplitFront(a + [sep], x, b + [sep], y);
    SplitFront(a, [sep], b, [sep]);
  }

  lemma LastSeparator<T>(a: seq<T>, x: seq<T>, b: seq<T>, y: seq<T>, sep: T)
    requires a + [sep] + x == b + [sep] + y && sep !in x && sep !in y
    ensures a == b && x == y
  {
    var s := a + [sep] + x;
    assert s[|a|] == sep && s[|b|] == sep;
    forall i | |a| < i < |s|
      ensures s[i] != sep
    {
      assert s[i] == x[i - |a| - 1];
    }
    forall i | |b| < i < |s|
      ensures s[i] != sep
    {
      assert s[i] == y[i - |b| - 1];
    }
    SplitFront(a + [sep], x, b + [sep], y);
    SplitFront(a, [sep], b, [sep]);
  }
}
