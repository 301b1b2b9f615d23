/**
 Signed service-to-service requests (packages/service-auth/src/index.ts): the Authorization
 header's printer and parser, the canonical string, and the verifier.  HMAC-SHA256 and
 SHA-256 are parameters.
 */
module ServiceAuth {
  import opened Prelude
  import opened Text
  import opened Bytes
  import opened Hex
  import opened Sequences

  datatype Config = Config(
    sha256Hex: bytes -> string,
    hmac: (bytes, string) -> bytes) // key, message -> digest

  /** The digests have their size, and hex digests are hex. */
  ghost predicate Assumed(c: Config) {
    (forall b :: AllHex(c.sha256Hex(b))) && (forall key, m :: |c.hmac(key, m)| == 32)
  }

  datatype AuthError = MissingAuth | MalformedAuth | UnknownKey | BadSignature | ClockSkew

  datatype Authorization = Authorization(keyId: string, ts: int, sig: string)

  const SCHEME := "VeraHmac"

  function Canonical(c: Config, verb: string, path: string, ts: int, body: bytes): string {
    ToUpper(verb) + "\n" + (path + "\n" + Decimal(ts) + "\n" + c.sha256Hex(body))
  }

  function Piece(name: string, value: string): string { name + "=" + value }

  function Print(a: Authorization): string {
    SCHEME + " " + (Piece("keyId", a.keyId) + "," + (Piece("ts", Decimal(a.ts)) + "," + Piece("sig", a.sig)))
  }

  function Signature(c: Config, secret: string, verb: string, path: string, ts: int, body: bytes): string {
    ToHex(c.hmac(FromHex(secret), Canonical(c, verb, path, ts, body)))
  }

  function Sign(c: Config, verb: string, path: string, body: bytes, keyId: string, secret: string, ts: int): string {
    Print(Authorization(keyId, ts, Signature(c, secret, verb, path, ts, body)))
  }

  // --- string operations -------------------------------------------------------------------

  /** header.split(/\s+/, 2): the part before the first run of white space, and the part after it. */
  function SplitSpace(s: string): (string, Option<string>) {
    var i := Until(s, IsSpace);
    if i == |s| then (s, None)
    else
      var tail := s[i..];
      var rest := tail[Until(tail, c => !IsSpace(c))..];
      (s[..i], Some(rest[..Until(rest, IsSpace)]))
  }

  function Is(sep: char): char -> bool { c => c == sep }

  /** s.split(sep) */
  function Split(s: string, sep: char): (pieces: seq<string>)
    ensures |pieces| > 0
    ensures forall i | 0 <= i < |pieces| :: sep !in pieces[i]
    decreases |s|
  {
    var i := Until(s, Is(sep));
    if i == |s| then [s] else [s[..i]] + Split(s[i + 1..], sep)
  }

  lemma {:induction false} SplitTakesFrom(s: string, sep: char, p: char -> bool)
    requires forall c | c in s :: p(c)
    ensures forall i | 0 <= i < |Split(s, sep)| :: forall c | c in Split(s, sep)[i] :: p(c)
    decreases |s|
  {
    var i := Until(s, Is(sep));
    if i < |s| {
      SplitTakesFrom(s[i + 1..], sep, p);
    }
  }

  /** s.trim() */
  function Trim(s: string): string
    decreases |s|
  {
    if s != [] && IsSpace(s[0]) then Trim(s[1..])
    else if s != [] && IsSpace(s[|s| - 1]) then Trim(s[..|s| - 1])
    else s
  }

  lemma TrimClean(s: string)
    requires forall c | c in s :: !IsSpace(c)
    ensures Trim(s) == s
  {
  }

  // --- parser -----------------------------------------------------------------------------

  /** What the pieces assign, a later assignment to the same name winning. */
  function Fields(pieces: seq<string>): Result<map<string, string>, AuthError> {
    if pieces == [] then Ok(map[])
    else
      var piece := pieces[|pieces| - 1];
      var eq := Until(piece, c => c == '=');
      match Fields(pieces[..|pieces| - 1])
      case Err(e) => Err(e)
      case Ok(m) =>
        if eq == 0 || eq == |piece| then Err(MalformedAuth)
        else Ok(m[Trim(piece[..eq]) := Trim(piece[eq + 1..])])
  }

  function Field(m: map<string, string>, name: string): string { if name in m then m[name] else "" }

  function Read(m: map<string, string>): Result<Authorization, AuthError> {
    var keyId, ts, sig := Field(m, "keyId"), Field(m, "ts"), Field(m, "sig");
    if keyId == "" || ts == "" || sig == "" || ParseInt(ts).None? || !AllHex(sig) then Err(MalformedAuth)
    else Ok(Authorization(keyId, ParseInt(ts).value, sig))
  }

  function Parse(header: string): Result<Authorization, AuthError> {
    var (scheme, rest) := SplitSpace(header);
    if scheme != SCHEME || rest.None? || rest.value == "" then Err(MalformedAuth)
    else
      match Fields(Split(rest.value, ','))
      case Err(e) => Err(e)
      case Ok(m) => Read(m)
  }

  method ParseAuthorization(header: string) returns (r: Result<Authorization, AuthError>)
    ensures r == Parse(header)
  {
    var (scheme, rest) := SplitSpace(header);
    if scheme != SCHEME || rest.None? || rest.value == "" {
      return Err(MalformedAuth);
    }
    var pieces := Split(rest.value, ',');
    var parts: map<string, string> := map[];
    for i := 0 to |pieces|
      invariant Fields(pieces[..i]) == Ok(parts)
    {
      assert pieces[..i + 1][..i] == pieces[..i];
      var eq := Until(pieces[i], c => c == '=');
      if eq == 0 || eq == |pieces[i]| {
        BadPiece(pieces, i + 1);
        return Err(MalformedAuth);
      }
      parts := parts[Trim(pieces[i][..eq]) := Trim(pieces[i][eq + 1..])];
    }
    assert pieces[..|pieces|] == pieces;
    return Read(parts);
  }

  /** A malformed piece is never made up for by later ones. */
  lemma {:induction false} BadPiece(pieces: seq<string>, i: nat)
    requires i <= |pieces| && Fields(pieces[..i]) == Err(MalformedAuth)
    ensures Fields(pieces) == Err(MalformedAuth)
    decreases |pieces|
  {
    if i == |pieces| {
      assert pieces[..i] == pieces;
    } else {
      var init := pieces[..|pieces| - 1];
      assert init[..i] == pieces[..i];
      BadPiece(init, i);
    }
  }

  // --- verifier ----------------------------------------------------------------------------

  function Verify(c: Config, authorization: Option<string>, verb: string, path: string, body: bytes,
                  keys: map<string, string>, now: int, window: int): Result<string, AuthError>
  {
    if authorization.None? || authorization.value == "" then Err(MissingAuth)
    else
      match Parse(authorization.value)
      case Err(e) => Err(e)
      case Ok(a) =>
        if a.keyId !in keys || keys[a.keyId] == "" then Err(UnknownKey)
        else if now - a.ts > window || a.ts - now > window then Err(ClockSkew)
        else if FromHex(a.sig) != c.hmac(FromHex(keys[a.keyId]), Canonical(c, verb, path, a.ts, body))
        then Err(BadSignature)
        else Ok(a.keyId)
  }

  // --- parsing undoes printing ----------------------------------------------------------------

  predicate Plain(s: string) { forall c | c in s :: c != ',' && !IsSpace(c) }

  predicate Clean(keyId: string) { keyId != "" && Plain(keyId) }

  lemma SplitOff(a: string, sep: char, b: string)
    requires sep !in a
    ensures Split(a + [sep] + b, sep) == [a] + Split(b, sep)
  {
    var s := a + [sep] + b;
    UntilFirst(a, sep, b, Is(sep));
    assert s[..|a|] == a && s[|a| + 1..] == b;
  }

  lemma SplitLast(a: string, sep: char)
    requires sep !in a
    ensures Split(a, sep) == [a]
  {
    UntilNone(a, Is(sep));
  }

  lemma OneField(m: map<string, string>, before: seq<string>, name: string, value: string)
    requires Fields(before) == Ok(m) && Name(name) && Plain(value)
    ensures Fields(before + [Piece(name, value)]) == Ok(m[name := value])
  {
    var piece := Piece(name, value);
    var all := before + [piece];
    assert all[..|all| - 1] == before && all[|all| - 1] == piece;
    UntilFirst(name, '=', value, c => c == '=');
    assert piece[..|name|] == name && piece[|name| + 1..] == value;
    TrimClean(name);
    TrimClean(value);
  }

  lemma SplitHeader(rest: string)
    requires rest != "" && forall c | c in rest :: !IsSpace(c)
    ensures SplitSpace(SCHEME + " " + rest) == (SCHEME, Some(rest))
  {
    var s := SCHEME + " " + rest;
    UntilFirst(SCHEME, ' ', rest, IsSpace);
    assert s[..8] == SCHEME && s[8..] == [' '] + rest;
    var tail := s[8..];
    UntilFirst([' '], rest[0], rest[1..], c => !IsSpace(c));
    assert tail == [' '] + [rest[0]] + rest[1..];
    assert tail[1..] == rest;
    UntilNone(rest, IsSpace);
    assert rest[..|rest|] == rest;
  }

  lemma SplitThree(a: string, b: string, d: string)
    requires ',' !in a && ',' !in b && ',' !in d
    ensures Split(a + "," + (b + "," + d), ',') == [a, b, d]
  {
    SplitOff(a, ',', b + [','] + d);
    SplitOff(b, ',', d);
    SplitLast(d, ',');
  }

  predicate Name(s: string) { Plain(s) && s != "" && '=' !in s }

  /** Three assignments in a row. */
  lemma ThreeFields(n1: string, v1: string, n2: string, v2: string, n3: string, v3: string)
    requires Name(n1) && Name(n2) && Name(n3) && Plain(v1) && Plain(v2) && Plain(v3)
    ensures Fields([Piece(n1, v1), Piece(n2, v2), Piece(n3, v3)]) == Ok(map[n1 := v1][n2 := v2][n3 := v3])
  {
    hide Piece, Fields;
    var p1, p2, p3 := Piece(n1, v1), Piece(n2, v2), Piece(n3, v3);
    NoFields();
    OneField(map[], [], n1, v1);
    assert [] + [p1] == [p1];
    OneField(map[n1 := v1], [p1], n2, v2);
    assert [p1] + [p2] == [p1, p2];
    OneField(map[n1 := v1][n2 := v2], [p1, p2], n3, v3);
    assert [p1, p2] + [p3] == [p1, p2, p3];
    assert map[][n1 := v1] == map[n1 := v1];
  }

  lemma NoFields()
    ensures Fields([]) == Ok(map[])
  {
  }

  /** The part of a printed header after the scheme. */
  function Credentials(keyId: string, ts: string, sig: string): string {
    Piece("keyId", keyId) + "," + (Piece("ts", ts) + "," + Piece("sig", sig))
  }

  lemma PieceIsPlain(name: string, value: string)
    requires Plain(name) && Plain(value)
    ensures Plain(Piece(name, value))
  {
  }

  lemma NamesArePlain()
    ensures Name("keyId") && Name("ts") && Name("sig")
  {
  }

  lemma CredentialsAreRead(keyId: string, ts: string, sig: string)
    requires Plain(keyId) && Plain(ts) && Plain(sig)
    ensures Fields(Split(Credentials(keyId, ts, sig), ',')) == Ok(map["keyId" := keyId]["ts" := ts]["sig" := sig])
    ensures forall c | c in Credentials(keyId, ts, sig) :: !IsSpace(c)
  {
    hide Fields, Piece;
    NamesArePlain();
    PieceIsPlain("keyId", keyId);
    PieceIsPlain("ts", ts);
    PieceIsPlain("sig", sig);
    SplitThree(Piece("keyId", keyId), Piece("ts", ts), Piece("sig", sig));
    ThreeFields("keyId", keyId, "ts", ts, "sig", sig);
  }

  lemma ParsePrinted(a: Authorization)
    requires Clean(a.keyId) && a.sig != "" && AllHex(a.sig)
    ensures Parse(Print(a)) == Ok(a)
  {
    hide Fields, Piece;
    var ts := Decimal(a.ts);
    HexIsClean(a.sig);
    CredentialsAreRead(a.keyId, ts, a.sig);
    SplitHeader(Credentials(a.keyId, ts, a.sig));
    ParseUndoesPrint(a.ts);
  }

  lemma HexIsClean(s: string)
    requires AllHex(s)
    ensures forall c | c in s :: c != ',' && !IsSpace(c) && c != '\n'
  {
  }

  /** What the pieces of a header can assign. */
  lemma {:induction false} FieldsAreClean(pieces: seq<string>)
    requires forall i | 0 <= i < |pieces| :: Plain(pieces[i])
    ensures Fields(pieces).Ok? ==> forall name | name in Fields(pieces).value :: Plain(Fields(pieces).value[name])
  {
    if pieces != [] {
      FieldsAreClean(pieces[..|pieces| - 1]);
      var piece := pieces[|pieces| - 1];
      var eq := Until(piece, c => c == '=');
      if 0 < eq < |piece| {
        var value := piece[eq + 1..];
        assert forall c | c in value :: c in piece;
        TrimClean(value);
      }
    }
  }

  lemma ParsedIsClean(header: string)
    ensures Parse(header).Ok? ==> Clean(Parse(header).value.keyId)
  {
    var (scheme, rest) := SplitSpace(header);
    if rest.Some? {
      var pieces := Split(rest.value, ',');
      SplitTakesFrom(rest.value, ',', c => !IsSpace(c));
      FieldsAreClean(pieces);
    }
  }

  /** Parsing undoes printing exactly when the key id is non-empty and free of commas and white space. */
  lemma ParseUndoesPrintIff(a: Authorization)
    requires a.sig != "" && AllHex(a.sig)
    ensures Parse(Print(a)) == Ok(a) <==> Clean(a.keyId)
  {
    if Clean(a.keyId) {
      ParsePrinted(a);
    } else {
      ParsedIsClean(Print(a));
    }
  }

  /**
   A signed request is accepted exactly within the window, and is otherwise told its clock is
   off: the same path, body and secret, the method up to case.
   */
  lemma SignedIsAcceptedIffInWindow(c: Config, verb: string, received: string, path: string, body: bytes,
                                    keyId: string, keys: map<string, string>, ts: int, now: int, window: int)
    requires Assumed(c) && Clean(keyId) && keyId in keys && keys[keyId] != ""
    requires ToUpper(verb) == ToUpper(received)
    ensures Verify(c, Some(Sign(c, verb, path, body, keyId, keys[keyId], ts)), received, path, body, keys, now, window)
            == if -window <= now - ts <= window then Ok(keyId) else Err(ClockSkew)
  {
    var sig := Signature(c, keys[keyId], verb, path, ts, body);
    assert |c.hmac(FromHex(keys[keyId]), Canonical(c, verb, path, ts, body))| == 32;
    ParsePrinted(Authorization(keyId, ts, sig));
    FromHexUndoesToHex(c.hmac(FromHex(keys[keyId]), Canonical(c, verb, path, ts, body)));
  }

  // --- the canonical string -------------------------------------------------------------------

  /** Four parts with separators between: the first, third and fourth cannot hide one. */
  lemma FourParts(a1: string, b1: string, c1: string, d1: string,
                  a2: string, b2: string, c2: string, d2: string, sep: char)
    requires a1 + [sep] + (b1 + [sep] + c1 + [sep] + d1) == a2 + [sep] + (b2 + [sep] + c2 + [sep] + d2)
    requires sep !in a1 && sep !in a2 && sep !in c1 && sep !in c2 && sep !in d1 && sep !in d2
    ensures a1 == a2 && b1 == b2 && c1 == c2 && d1 == d2
  {
    FirstSeparator(a1, b1 + [sep] + c1 + [sep] + d1, a2, b2 + [sep] + c2 + [sep] + d2, sep);
    LastSeparator(b1 + [sep] + c1, d1, b2 + [sep] + c2, d2, sep);
    LastSeparator(b1, c1, b2, c2, sep);
  }

  lemma UpperHasNoNewline(m: string)
    requires '\n' !in m
    ensures '\n' !in ToUpper(m)
  {
  }

  /**
   For methods without a newline the canonical string determines the method up to case, the
   path, the timestamp and the body's hash, even when the path contains newlines.
   */
  lemma CanonicalIsInjective(c: Config, m1: string, p1: string, t1: int, b1: bytes,
                             m2: string, p2: string, t2: int, b2: bytes)
    requires Assumed(c) && '\n' !in m1 && '\n' !in m2
    ensures Canonical(c, m1, p1, t1, b1) == Canonical(c, m2, p2, t2, b2)
            <==> ToUpper(m1) == ToUpper(m2) && p1 == p2 && t1 == t2 && c.sha256Hex(b1) == c.sha256Hex(b2)
  {
    if Canonical(c, m1, p1, t1, b1) == Canonical(c, m2, p2, t2, b2) {
      UpperHasNoNewline(m1);
      UpperHasNoNewline(m2);
      HexIsClean(c.sha256Hex(b1));
      HexIsClean(c.sha256Hex(b2));
      FourParts(ToUpper(m1), p1, Decimal(t1), c.sha256Hex(b1), ToUpper(m2), p2, Decimal(t2), c.sha256Hex(b2), '\n');
      ParseUndoesPrint(t1);
      ParseUndoesPrint(t2);
    }
  }

  /** What a canonical string is meant to pin down. */
  function Carried(c: Config, verb: string, path: string, ts: int, body: bytes): (string, string, int, string) {
    (ToUpper(verb), path, ts, c.sha256Hex(body))
  }

  lemma UpperJoins(a: string, b: string)
    ensures ToUpper(a + "\n" + b) == ToUpper(a) + "\n" + ToUpper(b)
  {
  }

  lemma Regroup(a: string, u: string, path: string, ts: string, hash: string)
    ensures a + "\n" + u + "\n" + (path + "\n" + ts + "\n" + hash)
         == a + "\n" + (u + "\n" + path + "\n" + ts + "\n" + hash)
  {
    var rest := "\n" + ts + "\n" + hash;
    assert path + "\n" + ts + "\n" + hash == path + rest;
    assert u + "\n" + path + "\n" + ts + "\n" + hash == u + "\n" + path + rest;
    assert a + "\n" + u + "\n" + (path + rest) == a + "\n" + (u + "\n" + path + rest);
  }

  /** A newline in a method does not tell where the method ends: what follows it may as well start the path. */
  lemma MethodNewlineIsAmbiguous(c: Config, a: string, b: string, path: string, ts: int, body: bytes)
    ensures Canonical(c, a + "\n" + b, path, ts, body) == Canonical(c, a, ToUpper(b) + "\n" + path, ts, body)
    ensures Carried(c, a + "\n" + b, path, ts, body) != Carried(c, a, ToUpper(b) + "\n" + path, ts, body)
  {
    hide ToUpper, Decimal;
    UpperJoins(a, b);
    Regroup(ToUpper(a), ToUpper(b), path, Decimal(ts), c.sha256Hex(body));
    assert |ToUpper(b) + "\n" + path| > |path|;
  }

  /** The part of a path before its first newline. */
  function FirstLine(path: string): string { path[..Until(path, ch => ch == '\n')] }

  /** Methods are upper-cased in the canonical string, so a line with lower-case letters must belong to the path. */
  predicate Unambiguous(verb: string, path: string) {
    '\n' !in verb && ('\n' in path ==> ToUpper(FirstLine(path)) != FirstLine(path))
  }

  lemma FirstLineOf(x: string, y: string)
    requires '\n' !in x
    ensures FirstLine(x + "\n" + y) == x
  {
    UntilFirst(x, '\n', y, ch => ch == '\n');
  }

  lemma UpperTwice(s: string)
    ensures ToUpper(ToUpper(s)) == ToUpper(s)
  {
  }

  /** A string with a newline is its first line, the newline, and the rest. */
  lemma CutAtNewline(s: string) returns (a: string, b: string)
    requires '\n' in s
    ensures s == a + "\n" + b && '\n' !in a && a == FirstLine(s)
  {
    var k := Until(s, ch => ch == '\n');
    if k == |s| {
      assert false;
    }
    a, b := s[..k], s[k + 1..];
  }

  /** A path that does not start with an upper-case line is in no other reading. */
  lemma NoOtherReading(c: Config, m1: string, p1: string, t1: int, b1: bytes,
                       m2: string, p2: string, t2: int, b2: bytes)
    requires Assumed(c) && '\n' !in m1 && '\n' in m2
    requires Canonical(c, m1, p1, t1, b1) == Canonical(c, m2, p2, t2, b2)
    ensures !Unambiguous(m1, p1)
  {
    hide ToUpper, Decimal, FirstLine;
    var a, b := CutAtNewline(m2);
    UpperJoins(a, b);
    UpperHasNoNewline(m1);
    UpperHasNoNewline(a);
    HexIsClean(c.sha256Hex(b1));
    HexIsClean(c.sha256Hex(b2));
    var d1, d2, h1, h2, u := Decimal(t1), Decimal(t2), c.sha256Hex(b1), c.sha256Hex(b2), ToUpper(b);
    Regroup(ToUpper(a), u, p2, d2, h2);
    FourParts(ToUpper(m1), p1, d1, h1, ToUpper(a), u + "\n" + p2, d2, h2, '\n');
    StartsUpper(b, p2);
  }

  lemma StartsUpper(b: string, rest: string)
    ensures var p := ToUpper(b) + "\n" + rest; '\n' in p && ToUpper(FirstLine(p)) == FirstLine(p)
  {
    var u := ToUpper(b);
    UpperTwice(b);
    if '\n' in u {
      var x, y := CutAtNewline(u);
      UpperJoins(x, y);
      FirstSeparator(ToUpper(x), ToUpper(y), x, y, '\n');
      assert u + "\n" + rest == x + "\n" + (y + "\n" + rest);
      FirstLineOf(x, y + "\n" + rest);
    } else {
      FirstLineOf(u, rest);
    }
  }

  /** Another reading of a request that Unambiguous turns down. */
  lemma OtherReading(c: Config, verb: string, path: string, ts: int, body: bytes) returns (m: string, p: string)
    requires !Unambiguous(verb, path)
    ensures Canonical(c, verb, path, ts, body) == Canonical(c, m, p, ts, body)
    ensures Carried(c, verb, path, ts, body) != Carried(c, m, p, ts, body)
  {
    hide Canonical;
    if '\n' in verb {
      var a, b := CutAtNewline(verb);
      MethodNewlineIsAmbiguous(c, a, b, path, ts, body);
      m, p := a, ToUpper(b) + "\n" + path;
    } else {
      var a, b := CutAtNewline(path);
      MethodNewlineIsAmbiguous(c, verb, a, b, ts, body);
      m, p := verb + "\n" + a, b;
    }
  }

  /**
   Exactly when a canonical string has one reading among all requests: its method holds no
   newline, and its path either holds none or has a lower-case letter before the first.
   */
  lemma CanonicalHasOneReadingIff(c: Config, verb: string, path: string, ts: int, body: bytes)
    requires Assumed(c)
    ensures (forall m, p, t, b :: Canonical(c, verb, path, ts, body) == Canonical(c, m, p, t, b)
                                  ==> Carried(c, verb, path, ts, body) == Carried(c, m, p, t, b))
            <==> Unambiguous(verb, path)
  {
    hide Canonical, Carried, Unambiguous;
    if Unambiguous(verb, path) {
      forall m, p, t, b | Canonical(c, verb, path, ts, body) == Canonical(c, m, p, t, b)
        ensures Carried(c, verb, path, ts, body) == Carried(c, m, p, t, b)
      {
        OnlyReading(c, verb, path, ts, body, m, p, t, b);
      }
    } else {
      var m, p := OtherReading(c, verb, path, ts, body);
    }
  }

  lemma OnlyReading(c: Config, m1: string, p1: string, t1: int, b1: bytes,
                    m2: string, p2: string, t2: int, b2: bytes)
    requires Assumed(c) && Unambiguous(m1, p1)
    requires Canonical(c, m1, p1, t1, b1) == Canonical(c, m2, p2, t2, b2)
    ensures Carried(c, m1, p1, t1, b1) == Carried(c, m2, p2, t2, b2)
  {
    if '\n' in m2 {
      NoOtherReading(c, m1, p1, t1, b1, m2, p2, t2, b2);
    } else {
      CanonicalIsInjective(c, m1, p1, t1, b1, m2, p2, t2, b2);
    }
  }

  /** A newline in the path alone need not hurt. */
  lemma LowerCaseLineStaysInThePath(c: Config, verb: string, rest: string, ts: int, body: bytes,
                                    m: string, p: string, t: int, b: bytes)
    requires Assumed(c) && '\n' !in verb
    requires Canonical(c, verb, "/v1\n" + rest, ts, body) == Canonical(c, m, p, t, b)
    ensures ToUpper(m) == ToUpper(verb) && p == "/v1\n" + rest
  {
    FirstLineOf("/v1", rest);
    assert "/v1\n" + rest == "/v1" + "\n" + rest;
    assert ToUpper("/v1")[1] == 'V';
    OnlyReading(c, verb, "/v1\n" + rest, ts, body, m, p, t, b);
  }

  /** A header from Sign is accepted only if the signatures agree byte for byte. */
  lemma AcceptedMeansEqualMacs(c: Config, m1: string, p1: string, b1: bytes, m2: string, p2: string, b2: bytes,
                               keyId: string, keys: map<string, string>, ts: int, now: int, window: int)
    requires Assumed(c) && Clean(keyId) && keyId in keys
    requires Verify(c, Some(Sign(c, m1, p1, b1, keyId, keys[keyId], ts)), m2, p2, b2, keys, now, window).Ok?
    ensures var key := FromHex(keys[keyId]);
            c.hmac(key, Canonical(c, m1, p1, ts, b1)) == c.hmac(key, Canonical(c, m2, p2, ts, b2))
  {
    hide Canonical, Print, Parse, FromHex, ToHex;
    var mac := c.hmac(FromHex(keys[keyId]), Canonical(c, m1, p1, ts, b1));
    assert |mac| == 32;
    ParsePrinted(Authorization(keyId, ts, ToHex(mac)));
    FromHexUndoesToHex(mac);
  }

  /**
   A header signed for one request is accepted with another only if the two agree on method
   (up to case), path and body hash, or HMAC gives two different messages the same digest:
   unless the request is one whose canonical string has a second reading.
   */
  lemma TamperingNeedsACollision(c: Config, m1: string, p1: string, b1: bytes, m2: string, p2: string, b2: bytes,
                                 keyId: string, keys: map<string, string>, ts: int, now: int, window: int)
    requires Assumed(c) && Clean(keyId) && keyId in keys
    requires Unambiguous(m1, p1) || ('\n' !in m1 && '\n' !in m2)
    requires Verify(c, Some(Sign(c, m1, p1, b1, keyId, keys[keyId], ts)), m2, p2, b2, keys, now, window).Ok?
    ensures var key, x, y := FromHex(keys[keyId]), Canonical(c, m1, p1, ts, b1), Canonical(c, m2, p2, ts, b2);
            c.hmac(key, x) == c.hmac(key, y)
            && (x == y ==> ToUpper(m1) == ToUpper(m2) && p1 == p2 && c.sha256Hex(b1) == c.sha256Hex(b2))
  {
    AcceptedMeansEqualMacs(c, m1, p1, b1, m2, p2, b2, keyId, keys, ts, now, window);
    hide Verify, Sign, Canonical, Unambiguous, FromHex;
    if Canonical(c, m1, p1, ts, b1) == Canonical(c, m2, p2, ts, b2) {
      if Unambiguous(m1, p1) {
        OnlyReading(c, m1, p1, ts, b1, m2, p2, ts, b2);
      } else {
        CanonicalIsInjective(c, m1, p1, ts, b1, m2, p2, ts, b2);
      }
    }
  }
}
