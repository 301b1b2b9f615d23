/**
 Placeholder substitution (services/vault/src/vault/template.ts): a left-to-right scanner,
 specified by the one way there is to cut a template into literals and placeholders.
 */
module Template {
  import opened Prelude
  import opened Text

  datatype TemplateValues = TemplateValues(
    pan: string, cvc: Option<string>, expMonth: string, expYear: string, cardholderName: string,
    last4: string, bin: string)

  datatype TemplateError = Unknown(name: string) | NoValue(name: string)

  /** The callback of the replace: KNOWN, then the value. */
  function Lookup(values: TemplateValues, name: string): Result<string, TemplateError> {
    if name == "pan" then Ok(values.pan)
    else if name == "cvc" then (if values.cvc.Some? then Ok(values.cvc.value) else Err(NoValue(name)))
    else if name == "expMonth" then Ok(values.expMonth)
    else if name == "expYear" then Ok(values.expYear)
    else if name == "cardholderName" then Ok(values.cardholderName)
    else if name == "last4" then Ok(values.last4)
    else if name == "bin" then Ok(values.bin)
    else Err(Unknown(name))
  }

  /** [a-zA-Z0-9_] */
  predicate NameChar(c: char) { IsLower(c) || IsUpper(c) || IsDigit(c) || c == '_' }

  predicate IsPlaceholder(s: string) {
    && |s| >= 5 && s[0] == '{' && s[1] == '{' && s[|s| - 2] == '}' && s[|s| - 1] == '}'
    && forall i | 2 <= i < |s| - 2 :: NameChar(s[i])
  }

  /** The length of the match of /\{\{([a-zA-Z0-9_]+)\}\}/ at the start of t, or 0. */
  function MatchAt(t: string): (n: nat)
    ensures n <= |t| && (n > 0 ==> IsPlaceholder(t[..n]))
  {
    if |t| < 5 || t[0] != '{' || t[1] != '{' then 0
    else
      var n := Until(t[2..], c => !NameChar(c));
      if n > 0 && n + 4 <= |t| && t[n + 2] == '}' && t[n + 3] == '}' then n + 4 else 0
  }

  function Substitute(t: string, values: TemplateValues): Result<string, TemplateError>
    decreases |t|
  {
    if t == [] then Ok("")
    else if MatchAt(t) == 0 then
      match Substitute(t[1..], values)
      case Err(e) => Err(e)
      case Ok(rest) => Ok([t[0]] + rest)
    else
      var n := MatchAt(t);
      match Lookup(values, t[2..n - 2])
      case Err(e) => Err(e)
      case Ok(value) =>
        match Substitute(t[n..], values)
        case Err(e) => Err(e)
        case Ok(rest) => Ok(value + rest)
  }

  // --- decompositions -----------------------------------------------------------------------

  datatype Piece = Lit(c: char) | Hole(name: string)

  function Placeholder(name: string): string { "{{" + name + "}}" }

  function Spelling(p: Piece): string { if p.Lit? then [p.c] else Placeholder(p.name) }

  function Render(ps: seq<Piece>): string {
    if ps == [] then "" else Spelling(ps[0]) + Render(ps[1..])
  }

  predicate AllLit(ps: seq<Piece>) { forall p | p in ps :: p.Lit? }

  /** ps cuts t up so that every placeholder is a hole: no stretch of literals spells one. */
  ghost predicate Decomposes(ps: seq<Piece>, t: string) {
    Render(ps) == t && HolesAreNames(ps) && LitsSpellNone(ps)
  }

  predicate HolesAreNames(ps: seq<Piece>) { forall p | p in ps && p.Hole? :: IsPlaceholder(Spelling(p)) }

  ghost predicate LitsSpellNone(ps: seq<Piece>) {
    forall i, j | 0 <= i <= j <= |ps| && AllLit(ps[i..j]) :: !IsPlaceholder(Render(ps[i..j]))
  }

  function Scan(t: string): (ps: seq<Piece>)
    decreases |t|
  {
    if t == [] then []
    else if MatchAt(t) == 0 then [Lit(t[0])] + Scan(t[1..])
    else [Hole(t[2..MatchAt(t) - 2])] + Scan(t[MatchAt(t)..])
  }

  /** The first piece, and what is left after it. */
  function Head(t: string): Piece
    requires t != []
  {
    if MatchAt(t) == 0 then Lit(t[0]) else Hole(t[2..MatchAt(t) - 2])
  }

  function Taken(t: string): (n: nat)
    requires t != []
    ensures 0 < n <= |t|
  {
    if MatchAt(t) == 0 then 1 else MatchAt(t)
  }

  lemma ScanStep(t: string)
    requires t != []
    ensures Scan(t) == [Head(t)] + Scan(t[Taken(t)..])
  {
  }

  lemma MatchIsPrefix(t: string, n: nat)
    requires n <= |t| && IsPlaceholder(t[..n])
    ensures MatchAt(t) == n
  {
    var s := t[..n];
    assert forall i | 0 <= i < n :: s[i] == t[i];
    assert t[2..] == t[2..n - 2] + [t[n - 2]] + t[n - 1..];
    UntilFirst(t[2..n - 2], t[n - 2], t[n - 1..], c => !NameChar(c));
  }

  /** Placeholders do not overlap: none starts inside another. */
  lemma NoOverlap(t: string, n: nat, i: nat, j: nat)
    requires n <= |t| && IsPlaceholder(t[..n]) && 0 < i < n && i <= j <= |t|
    ensures !IsPlaceholder(t[i..j])
  {
    var s := t[..n];
    assert forall k | 0 <= k < n :: s[k] == t[k];
    if j - i >= 5 {
      assert t[i..j][0] == t[i] && t[i..j][1] == t[i + 1];
    }
  }

  lemma RenderLits(ps: seq<Piece>)
    requires AllLit(ps)
    ensures |Render(ps)| == |ps|
  {
    if ps != [] {
      assert forall p | p in ps[1..] :: p in ps;
      RenderLits(ps[1..]);
    }
  }

  lemma {:induction false} RenderJoins(a: seq<Piece>, b: seq<Piece>)
    ensures Render(a + b) == Render(a) + Render(b)
  {
    if a == [] {
      assert a + b == b;
    } else {
      assert (a + b)[0] == a[0] && (a + b)[1..] == a[1..] + b;
      RenderJoins(a[1..], b);
    }
  }

  lemma HoleSpells(s: string)
    requires IsPlaceholder(s)
    ensures Spelling(Hole(s[2..|s| - 2])) == s
  {
    assert s == "{{" + s[2..|s| - 2] + "}}";
  }

  lemma SliceOfPrefix(t: string, n: nat)
    requires 4 <= n <= |t|
    ensures t[..n][2..n - 2] == t[2..n - 2]
  {
  }

  lemma HeadSpells(t: string)
    requires t != []
    ensures Spelling(Head(t)) == t[..Taken(t)] && (Head(t).Hole? ==> IsPlaceholder(Spelling(Head(t))))
  {
    var n := MatchAt(t);
    if n > 0 {
      HoleSpells(t[..n]);
      SliceOfPrefix(t, n);
    }
  }

  lemma RenderCons(p: Piece, ps: seq<Piece>)
    ensures Render([p] + ps) == Spelling(p) + Render(ps)
  {
    assert ([p] + ps)[1..] == ps;
  }

  lemma RenderNothing(ps: seq<Piece>)
    requires ps == []
    ensures Render(ps) == ""
  {
  }

  lemma {:induction false} ScanSpells(t: string)
    ensures Render(Scan(t)) == t
    decreases |t|
  {
    hide MatchAt, IsPlaceholder, Head, Spelling, Scan, Render;
    if t == [] {
      ScanNothing();
      RenderNothing([]);
    } else {
      ScanSpells(t[Taken(t)..]);
      HeadSpells(t);
      ScanStep(t);
      RenderCons(Head(t), Scan(t[Taken(t)..]));
      assert t == t[..Taken(t)] + t[Taken(t)..];
    }
  }

  lemma ScanNothing()
    ensures Scan([]) == []
  {
  }

  // --- the scanner finds the one decomposition ------------------------------------------------

  lemma {:induction false} ScannedHolesAreNames(t: string)
    ensures HolesAreNames(Scan(t))
    decreases |t|
  {
    hide MatchAt, IsPlaceholder, Head, Spelling;
    if t != [] {
      ScannedHolesAreNames(t[Taken(t)..]);
      HeadSpells(t);
      ScanStep(t);
    }
  }

  /** Nothing the scanner leaves at the front as a literal starts a placeholder. */
  lemma FrontLits(t: string, j: nat)
    requires 0 < j <= |Scan(t)| && Scan(t)[0].Lit?
    ensures !IsPlaceholder(Render(Scan(t)[0..j]))
  {
    hide IsPlaceholder, Render, Scan, MatchAt;
    var ps := Scan(t);
    var s := Render(ps[0..j]);
    assert ps == ps[0..j] + ps[j..];
    RenderJoins(ps[0..j], ps[j..]);
    ScanSpells(t);
    assert s == t[..|s|];
    FrontIsLit(t);
    if IsPlaceholder(s) {
      MatchIsPrefix(t, |s|);
      PlaceholderIsLong(s);
    }
  }

  lemma FrontIsLit(t: string)
    requires Scan(t) != [] && Scan(t)[0].Lit?
    ensures MatchAt(t) == 0
  {
  }

  lemma PlaceholderIsLong(s: string)
    requires IsPlaceholder(s)
    ensures |s| >= 5
  {
  }

  lemma {:induction false} ScannedLitsSpellNothing(t: string, i: nat, j: nat)
    requires i <= j <= |Scan(t)| && AllLit(Scan(t)[i..j])
    ensures !IsPlaceholder(Render(Scan(t)[i..j]))
    decreases |t|
  {
    hide IsPlaceholder, Render, Scan, MatchAt, Head;
    var ps := Scan(t);
    if i == j {
      RenderNothing(ps[i..j]);
      assert !IsPlaceholder("") by { ShortIsNone(""); }
    } else if i == 0 {
      assert ps[0] in ps[0..j];
      FrontLits(t, j);
    } else {
      assert t != [] by { if t == [] { ScanNothing(); } }
      ScanStep(t);
      assert ps[i..j] == ps[1..][i - 1..j - 1] && ps[1..] == Scan(t[Taken(t)..]);
      ScannedLitsSpellNothing(t[Taken(t)..], i - 1, j - 1);
    }
  }

  lemma ShortIsNone(s: string)
    requires |s| < 5
    ensures !IsPlaceholder(s)
  {
  }

  lemma ScanDecomposes(t: string)
    ensures Decomposes(Scan(t), t)
  {
    ScanSpells(t);
    ScannedHolesAreNames(t);
    forall i, j | 0 <= i <= j <= |Scan(t)| && AllLit(Scan(t)[i..j])
      ensures !IsPlaceholder(Render(Scan(t)[i..j]))
    {
      ScannedLitsSpellNothing(t, i, j);
    }
  }

  /** What follows i literals. */
  lemma PieceAfterLits(ps: seq<Piece>, t: string, i: nat)
    requires Render(ps) == t && i <= |ps| && AllLit(ps[0..i]) && i < |t|
    ensures i < |ps| && Render(ps[0..i]) == t[..i]
    ensures var s := Spelling(ps[i]); i + |s| <= |t| && t[i..i + |s|] == s && Render(ps[0..i + 1]) == t[..i + |s|]
  {
    hide IsPlaceholder, Spelling, AllLit;
    assert ps == ps[0..i] + ps[i..];
    RenderJoins(ps[0..i], ps[i..]);
    RenderLits(ps[0..i]);
    RenderNothing([]);
    assert i < |ps|;
    var s := Spelling(ps[i]);
    RenderStep(ps, i);
    assert Render(ps[0..i]) == t[..i];
    assert t[i..i + |s|] == s;
    assert t[..i + |s|] == t[..i] + s;
  }

  lemma RenderStep(ps: seq<Piece>, i: nat)
    requires i < |ps|
    ensures Render(ps[i..]) == Spelling(ps[i]) + Render(ps[i + 1..])
    ensures Render(ps[0..i + 1]) == Render(ps[0..i]) + Spelling(ps[i])
  {
    assert ps[i..][1..] == ps[i + 1..];
    assert ps[0..i + 1] == ps[0..i] + [ps[i]] && [ps[i]][1..] == [];
    RenderJoins(ps[0..i], [ps[i]]);
  }

  /** A placeholder that starts at a literal is spelled by literals only. */
  lemma {:induction false} LitsUnderMatch(ps: seq<Piece>, t: string, n: nat, k: nat)
    requires Render(ps) == t && HolesAreNames(ps) && ps != [] && ps[0].Lit?
    requires n <= |t| && IsPlaceholder(t[..n]) && k <= n
    ensures k <= |ps| && AllLit(ps[0..k]) && Render(ps[0..k]) == t[..k]
  {
    hide IsPlaceholder, Render;
    if k == 0 {
      RenderNothing(ps[0..0]);
    } else {
      LitsUnderMatch(ps, t, n, k - 1);
      var i := k - 1;
      PieceAfterLits(ps, t, i);
      if i > 0 && ps[i].Hole? {
        NoOverlap(t, n, i, i + |Spelling(ps[i])|);
      }
      assert ps[0..k] == ps[0..i] + [ps[i]];
    }
  }

  lemma LitMeansNoMatch(ps: seq<Piece>, t: string)
    requires Decomposes(ps, t) && ps != [] && ps[0].Lit?
    ensures MatchAt(t) == 0
  {
    hide IsPlaceholder, Render, AllLit;
    if MatchAt(t) > 0 {
      LitsUnderMatch(ps, t, MatchAt(t), MatchAt(t));
    }
  }

  lemma TailDecomposes(ps: seq<Piece>, t: string)
    requires Decomposes(ps, t) && ps != []
    ensures var n := |Spelling(ps[0])|;
            n <= |t| && t[..n] == Spelling(ps[0]) && Decomposes(ps[1..], t[n..])
  {
    var n := |Spelling(ps[0])|;
    assert t == Spelling(ps[0]) + Render(ps[1..]);
    forall i, j | 0 <= i <= j <= |ps[1..]| && AllLit(ps[1..][i..j])
      ensures !IsPlaceholder(Render(ps[1..][i..j]))
    {
      assert ps[1..][i..j] == ps[i + 1..j + 1];
    }
  }

  lemma {:induction false} DecompositionIsScan(ps: seq<Piece>, t: string)
    requires Decomposes(ps, t)
    ensures ps == Scan(t)
    decreases |ps|
  {
    hide IsPlaceholder, LitsSpellNone, HolesAreNames, MatchAt;
    if ps != [] {
      var n := |Spelling(ps[0])|;
      TailDecomposes(ps, t);
      DecompositionIsScan(ps[1..], t[n..]);
      ScanStep(t);
      if ps[0].Hole? {
        FirstHole(ps, t);
      } else {
        LitMeansNoMatch(ps, t);
      }
      assert ps == [ps[0]] + ps[1..];
    }
  }

  lemma FirstHole(ps: seq<Piece>, t: string)
    requires HolesAreNames(ps) && ps != [] && ps[0].Hole?
    requires |Spelling(ps[0])| <= |t| && t[..|Spelling(ps[0])|] == Spelling(ps[0])
    ensures MatchAt(t) == |Spelling(ps[0])| && t[2..MatchAt(t) - 2] == ps[0].name
  {
    var n := |Spelling(ps[0])|;
    MatchIsPrefix(t, n);
    assert t[2..n - 2] == t[..n][2..n - 2];
  }

  /** Every template is cut into literals and non-overlapping placeholders in exactly one way. */
  lemma OneDecomposition(ps: seq<Piece>, t: string)
    ensures Decomposes(ps, t) <==> ps == Scan(t)
  {
    ScanDecomposes(t);
    if Decomposes(ps, t) {
      DecompositionIsScan(ps, t);
    }
  }

  // --- what substitution does with it -----------------------------------------------------------

  function Filled(p: Piece, values: TemplateValues): Result<string, TemplateError> {
    if p.Lit? then Ok([p.c]) else Lookup(values, p.name)
  }

  predicate Fillable(ps: seq<Piece>, values: TemplateValues) { forall p | p in ps :: Filled(p, values).Ok? }

  /** Literals verbatim, holes by their values: nothing looks at the result again. */
  function Output(ps: seq<Piece>, values: TemplateValues): string
    requires Fillable(ps, values)
  {
    if ps == [] then "" else Filled(ps[0], values).value + Output(ps[1..], values)
  }

  /** Where a failing substitution fails. */
  ghost predicate FailsAt(ps: seq<Piece>, values: TemplateValues, i: nat, e: TemplateError) {
    i < |ps| && Fillable(ps[..i], values) && ps[i].Hole? && Lookup(values, ps[i].name) == Err(e)
  }

  function Joined(a: Result<string, TemplateError>, b: Result<string, TemplateError>): Result<string, TemplateError> {
    if a.Err? then a else if b.Err? then b else Ok(a.value + b.value)
  }

  function FillAll(ps: seq<Piece>, values: TemplateValues): Result<string, TemplateError> {
    if ps == [] then Ok("") else Joined(Filled(ps[0], values), FillAll(ps[1..], values))
  }

  lemma {:induction false} SubstituteByPieces(t: string, values: TemplateValues)
    ensures Substitute(t, values) == FillAll(Scan(t), values)
    decreases |t|
  {
    hide Lookup;
    if t != [] {
      var rest := if MatchAt(t) == 0 then t[1..] else t[MatchAt(t)..];
      assert Scan(t)[1..] == Scan(rest);
      SubstituteByPieces(rest, values);
    }
  }

  lemma {:induction false} FillAllOrFail(ps: seq<Piece>, values: TemplateValues)
    ensures var r := FillAll(ps, values);
            if Fillable(ps, values) then r == Ok(Output(ps, values))
            else r.Err? && exists i: nat :: FailsAt(ps, values, i, r.error)
  {
    hide Lookup;
    if ps != [] {
      var r := FillAll(ps, values);
      FillAllOrFail(ps[1..], values);
      assert ps == [ps[0]] + ps[1..];
      if Filled(ps[0], values).Err? {
        assert FailsAt(ps, values, 0, r.error);
      } else if !Fillable(ps[1..], values) {
        var i: nat :| FailsAt(ps[1..], values, i, r.error);
        assert ps[..i + 1] == [ps[0]] + ps[1..][..i];
        assert FailsAt(ps, values, i + 1, r.error);
      }
    }
  }

  /**
   Substitution succeeds exactly if every placeholder is known and has a value, and then keeps
   the literals and puts each value where its placeholder was; otherwise it fails with the
   first placeholder that is unknown or has no value.
   */
  lemma SubstituteFillsTheHoles(t: string, values: TemplateValues)
    ensures var r := Substitute(t, values);
            if Fillable(Scan(t), values) then r == Ok(Output(Scan(t), values))
            else r.Err? && exists i: nat :: FailsAt(Scan(t), values, i, r.error)
  {
    SubstituteByPieces(t, values);
    FillAllOrFail(Scan(t), values);
  }

  // --- templates in two parts ----------------------------------------------------------------------

  predicate Straddles(a: string, b: string, i: nat, j: nat) {
    i < |a| < j <= |a + b| && IsPlaceholder((a + b)[i..j])
  }

  /** No placeholder lies across the cut between a and b. */
  ghost predicate Separate(a: string, b: string) { forall i: nat, j: nat :: !Straddles(a, b, i, j) }

  /** A match that ends before the cut is there without b, and what crosses the cut is not. */
  lemma MatchInFront(a: string, b: string)
    ensures MatchAt(a) == if MatchAt(a + b) <= |a| then MatchAt(a + b) else 0
  {
    hide MatchAt, IsPlaceholder;
    var n, m := MatchAt(a + b), MatchAt(a);
    MatchIsTaken(a);
    MatchIsTaken(a + b);
    assert m > 0 ==> (a + b)[..m] == a[..m];
    assert 0 < n <= |a| ==> a[..n] == (a + b)[..n];
    if m > 0 {
      MatchIsPrefix(a + b, m);
    }
    if 0 < n <= |a| {
      MatchIsPrefix(a, n);
    }
  }

  lemma MatchIsTaken(t: string)
    ensures MatchAt(t) <= |t| && (MatchAt(t) > 0 ==> IsPlaceholder(t[..MatchAt(t)]) && MatchAt(t) >= 5)
  {
  }

  lemma HeadInFront(a: string, b: string)
    requires a != [] && MatchAt(a + b) <= |a|
    ensures Head(a + b) == Head(a) && Taken(a + b) == Taken(a) && (a + b)[Taken(a)..] == a[Taken(a)..] + b
  {
    MatchInFront(a, b);
    MatchIsTaken(a);
    hide MatchAt, IsPlaceholder;
    var n := MatchAt(a);
    if n > 0 {
      assert (a + b)[2..n - 2] == a[2..n - 2];
    }
  }

  /** The same cut, seen from n characters further on. */
  lemma ShiftCut(a: string, b: string, n: nat, i: nat, j: nat)
    requires n <= |a|
    ensures Straddles(a, b, i + n, j + n) <==> Straddles(a[n..], b, i, j)
  {
    hide IsPlaceholder;
    if i <= j && j + n <= |a + b| {
      assert (a + b)[i + n..j + n] == (a[n..] + b)[i..j];
    }
  }

  lemma {:induction false} ScanAcrossCut(a: string, b: string)
    requires Separate(a, b)
    ensures Scan(a + b) == Scan(a) + Scan(b)
    decreases |a|
  {
    hide MatchAt, IsPlaceholder, Straddles, Head, Scan;
    if a == [] {
      assert a + b == b && Scan(a) == [] by { ScanNothing(); }
      assert [] + Scan(b) == Scan(b);
    } else {
      NoMatchAcross(a, b);
      HeadInFront(a, b);
      var n := Taken(a);
      forall i: nat, j: nat
        ensures !Straddles(a[n..], b, i, j)
      {
        ShiftCut(a, b, n, i, j);
      }
      ScanAcrossCut(a[n..], b);
      ScanStep(a);
      ScanStep(a + b);
      assert [Head(a)] + (Scan(a[n..]) + Scan(b)) == ([Head(a)] + Scan(a[n..])) + Scan(b);
    }
  }

  lemma NoMatchAcross(a: string, b: string)
    requires a != [] && Separate(a, b)
    ensures MatchAt(a + b) <= |a|
  {
    MatchIsTaken(a + b);
    hide MatchAt, IsPlaceholder;
    var n := MatchAt(a + b);
    assert (a + b)[0..n] == (a + b)[..n];
    assert !Straddles(a, b, 0, n);
  }

  /** A placeholder across the cut is one hole of the whole, and none of the parts. */
  lemma {:induction false} StraddledScanDiffers(a: string, b: string, i: nat, j: nat)
    requires Straddles(a, b, i, j)
    ensures Scan(a + b) != Scan(a) + Scan(b)
    decreases |a|
  {
    hide MatchAt, IsPlaceholder, Scan;
    ScanStep(a);
    ScanStep(a + b);
    if i == 0 {
      assert (a + b)[0..j] == (a + b)[..j];
      MatchIsPrefix(a + b, j);
      MatchInFront(a, b);
      assert (Scan(a) + Scan(b))[0] == Head(a) && Scan(a + b)[0] == Head(a + b);
    } else {
      MatchIsTaken(a + b);
      StraddleIsLater(a, b, i, j);
      HeadInFront(a, b);
      var n := Taken(a);
      ShiftCut(a, b, n, i - n, j - n);
      StraddledScanDiffers(a[n..], b, i - n, j - n);
      assert ([Head(a)] + Scan(a[n..])) + Scan(b) == [Head(a)] + (Scan(a[n..]) + Scan(b));
      assert ([Head(a)] + Scan(a[n..] + b))[1..] == Scan(a[n..] + b);
      assert ([Head(a)] + (Scan(a[n..]) + Scan(b)))[1..] == Scan(a[n..]) + Scan(b);
    }
  }

  lemma StraddleIsLater(a: string, b: string, i: nat, j: nat)
    requires Straddles(a, b, i, j) && i > 0
    ensures MatchAt(a + b) <= i
  {
    MatchIsTaken(a + b);
    hide MatchAt;
    if i < MatchAt(a + b) {
      NoOverlap(a + b, MatchAt(a + b), i, j);
    }
  }

  /** A template can be scanned in two parts exactly if no placeholder lies across the cut. */
  lemma ScanSplitsIff(a: string, b: string)
    ensures Scan(a + b) == Scan(a) + Scan(b) <==> Separate(a, b)
  {
    hide Scan, Straddles;
    if Separate(a, b) {
      ScanAcrossCut(a, b);
    } else {
      var i: nat, j: nat :| Straddles(a, b, i, j);
      StraddledScanDiffers(a, b, i, j);
    }
  }

  lemma {:induction false} FillJoins(a: seq<Piece>, b: seq<Piece>, values: TemplateValues)
    ensures FillAll(a + b, values) == Joined(FillAll(a, values), FillAll(b, values))
  {
    hide Filled;
    if a == [] {
      assert a + b == b;
      assert FillAll(b, values).Ok? ==> "" + FillAll(b, values).value == FillAll(b, values).value;
    } else {
      assert (a + b)[0] == a[0] && (a + b)[1..] == a[1..] + b;
      FillJoins(a[1..], b, values);
      var x, y, z := Filled(a[0], values), FillAll(a[1..], values), FillAll(b, values);
      assert x.Ok? && y.Ok? && z.Ok? ==> x.value + (y.value + z.value) == (x.value + y.value) + z.value;
    }
  }

  /** substitute(a + b) is substitute(a) then substitute(b), if no placeholder lies across the cut. */
  lemma SubstituteSplits(a: string, b: string, values: TemplateValues)
    requires Separate(a, b)
    ensures Substitute(a + b, values) == Joined(Substitute(a, values), Substitute(b, values))
  {
    hide Scan, Straddles;
    ScanAcrossCut(a, b);
    SubstituteByPieces(a + b, values);
    SubstituteByPieces(a, values);
    SubstituteByPieces(b, values);
    FillJoins(Scan(a), Scan(b), values);
  }

  /** Whatever surrounds it, a placeholder gives way to its value, braces in the value and all. */
  lemma HoleIsReplacedWhole(a: string, hole: string, b: string, values: TemplateValues)
    requires IsPlaceholder(hole)
    ensures Substitute(a + (hole + b), values)
            == Joined(Substitute(a, values), Joined(Lookup(values, hole[2..|hole| - 2]), Substitute(b, values)))
  {
    hide Lookup, Substitute, Straddles, IsPlaceholder;
    assert |hole| >= 5 by { PlaceholderIsLong(hole); }
    forall i: nat, j: nat
      ensures !Straddles(a, hole + b, i, j)
    {
      HoleIsNotStraddled(a, hole, b, i, j);
    }
    SubstituteSplits(a, hole + b, values);
    SubstituteLeadingHole(hole, b, values);
  }

  lemma SubstituteLeadingHole(hole: string, b: string, values: TemplateValues)
    requires IsPlaceholder(hole)
    ensures Substitute(hole + b, values) == Joined(Lookup(values, hole[2..|hole| - 2]), Substitute(b, values))
  {
    hide Lookup;
    var t, n := hole + b, |hole|;
    assert t[..n] == hole && t[n..] == b;
    MatchIsPrefix(t, n);
    SliceOfPrefix(t, n);
  }

  lemma HoleIsNotStraddled(a: string, hole: string, b: string, i: nat, j: nat)
    requires IsPlaceholder(hole)
    ensures !Straddles(a, hole + b, i, j)
  {
    var t := a + (hole + b);
    if i < |a| < j <= |t| && IsPlaceholder(t[i..j]) {
      var t' := t[i..];
      assert t'[..j - i] == t[i..j];
      var k := |a| - i;
      assert t[|a|..|a| + |hole|] == hole;
      assert t'[k..k + |hole|] == t[|a|..|a| + |hole|];
      NoOverlap(t', j - i, k, k + |hole|);
    }
  }

  /** What holds no placeholder is left as it is. */
  lemma {:induction false} NothingToFill(t: string, values: TemplateValues)
    requires forall i, j | 0 <= i <= j <= |t| :: !IsPlaceholder(t[i..j])
    ensures Substitute(t, values) == Ok(t)
  {
    hide IsPlaceholder, Lookup;
    if t != [] {
      assert t[0..MatchAt(t)] == t[..MatchAt(t)];
      forall i, j | 0 <= i <= j <= |t[1..]|
        ensures !IsPlaceholder(t[1..][i..j])
      {
        assert t[1..][i..j] == t[i + 1..j + 1];
      }
      NothingToFill(t[1..], values);
      assert t == [t[0]] + t[1..];
    }
  }

  /** Between double braces only the letters a to z and A to Z, digits and underscores make a placeholder. */
  lemma BracedIsPlaceholderIff(name: string, values: TemplateValues)
    requires '{' !in name && '}' !in name
    ensures IsPlaceholder("{{" + name + "}}") <==>
              name != "" && forall c | c in name :: 'a' <= c <= 'z' || 'A' <= c <= 'Z' || '0' <= c <= '9' || c == '_'
    ensures !IsPlaceholder("{{" + name + "}}") ==> Substitute("{{" + name + "}}", values) == Ok("{{" + name + "}}")
  {
    var t := "{{" + name + "}}";
    assert forall i | 2 <= i < |t| - 2 :: t[i] == name[i - 2] && t[i] in name;
    assert forall i | 0 <= i < |name| :: name[i] == t[i + 2];
    forall i, j | 0 <= i <= j <= |t|
      ensures IsPlaceholder(t[i..j]) ==> t[i..j] == t
    {
      OnlyTheWhole(name, i, j);
    }
    if !IsPlaceholder(t) {
      NothingToFill(t, values);
    }
  }

  lemma OnlyTheWhole(name: string, i: nat, j: nat)
    requires '{' !in name && '}' !in name && i <= j <= |name| + 4
    ensures var t := "{{" + name + "}}"; IsPlaceholder(t[i..j]) ==> t[i..j] == t
  {
    var t := "{{" + name + "}}";
    if IsPlaceholder(t[i..j]) {
      var s := t[i..j];
      assert s[1] == t[i + 1] && s[|s| - 2] == t[j - 2];
    }
  }

  /** The card's placeholders, each by its own value. */
  lemma CardPlaceholders(values: TemplateValues)
    ensures Substitute("{{pan}}", values) == Ok(values.pan)
    ensures Substitute("{{cvc}}", values)
            == if values.cvc.Some? then Ok(values.cvc.value) else Err(NoValue("cvc"))
    ensures Substitute("{{last4}}", values) == Ok(values.last4)
    ensures Substitute("{{bin}}", values) == Ok(values.bin)
  {
    hide Substitute;
    OnlyAHole("pan", "{{pan}}", values);
    OnlyAHole("cvc", "{{cvc}}", values);
    OnlyAHole("last4", "{{last4}}", values);
    OnlyAHole("bin", "{{bin}}", values);
  }

  /** The expiry's and the holder's. */
  lemma HolderPlaceholders(values: TemplateValues)
    ensures Substitute("{{expMonth}}", values) == Ok(values.expMonth)
    ensures Substitute("{{expYear}}", values) == Ok(values.expYear)
    ensures Substitute("{{cardholderName}}", values) == Ok(values.cardholderName)
  {
    hide Substitute;
    OnlyAHole("expMonth", "{{expMonth}}", values);
    OnlyAHole("expYear", "{{expYear}}", values);
    OnlyAHole("cardholderName", "{{cardholderName}}", values);
  }

  /** And there are no others. */
  lemma UnknownPlaceholders(values: TemplateValues, name: string)
    requires name != "" && forall c | c in name :: NameChar(c)
    ensures Substitute(Placeholder(name), values) == Err(Unknown(name))
            <==> name !in {"pan", "cvc", "expMonth", "expYear", "cardholderName", "last4", "bin"}
  {
    hide Substitute;
    OnlyAHole(name, Placeholder(name), values);
  }

  lemma OnlyAHole(name: string, hole: string, values: TemplateValues)
    requires name != "" && (forall c | c in name :: NameChar(c)) && hole == "{{" + name + "}}"
    ensures Substitute(hole, values) == Lookup(values, name)
  {
    hide Lookup;
    assert hole[2..|hole| - 2] == name && hole + "" == hole;
    SubstituteLeadingHole(hole, "", values);
    assert Lookup(values, name).Ok? ==> Lookup(values, name).value + "" == Lookup(values, name).value;
  }

  /** The entries of a headers object: its names are distinct. */
  predicate Entries(headers: seq<(string, string)>) {
    forall i, j | 0 <= i < j < |headers| :: headers[i].0 != headers[j].0
  }

  function Names(headers: seq<(string, string)>): set<string> { set h | h in headers :: h.0 }

  /** Every value substituted under its own name, or the first failure and nothing else. */
  method SubstituteHeaders(headers: seq<(string, string)>, values: TemplateValues)
    returns (r: Result<map<string, string>, TemplateError>)
    requires Entries(headers)
    ensures r.Ok? ==> r.value.Keys == Names(headers)
    ensures r.Ok? ==> forall i | 0 <= i < |headers| :: Substitute(headers[i].1, values) == Ok(r.value[headers[i].0])
    ensures r.Err? ==> exists i | 0 <= i < |headers| ::
                         Substitute(headers[i].1, values) == Err(r.error)
                         && forall k | 0 <= k < i :: Substitute(headers[k].1, values).Ok?
  {
    hide Substitute;
    var out: map<string, string> := map[];
    for i := 0 to |headers|
      invariant out.Keys == Names(headers[..i])
      invariant forall k | 0 <= k < i ::
                  headers[k].0 in out && Substitute(headers[k].1, values) == Ok(out[headers[k].0])
    {
      var s := Substitute(headers[i].1, values);
      if s.Err? {
        return Err(s.error);
      }
      out := out[headers[i].0 := s.value];
      assert headers[..i + 1] == headers[..i] + [headers[i]];
    }
    assert headers[..|headers|] == headers;
    return Ok(out);
  }
}
