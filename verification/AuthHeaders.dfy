/**
 The signed-request header and its verifier (packages/service-auth/src/index.ts:63-212) for every
 header, not only those that signRequest prints: what parses, to what, and which error comes first.
 */
module AuthHeaders {
  import opened Prelude
  import opened Text
  import opened Bytes
  import opened Hex
  import opened ServiceAuth

  // --- the two words ---------------------------------------------------------------------------

  predicate AllSpace(s: string) { forall c | c in s :: IsSpace(c) }

  predicate NoSpace(s: string) { forall c | c in s :: !IsSpace(c) }

  /** The scheme, white space, `rest`, and then nothing or white space and anything. */
  ghost predicate HeaderIs(header: string, rest: string) {
    exists gap: string, after: string :: HeaderParts(header, gap, rest, after)
  }

  predicate HeaderParts(header: string, gap: string, rest: string, after: string) {
    && header == "VeraHmac" + (gap + (rest + after))
    && gap != "" && AllSpace(gap) && rest != "" && NoSpace(rest) && (after != "" ==> IsSpace(after[0]))
  }

  /** Where a prefix ends that fails p, if p holds of what follows. */
  lemma UntilIs(a: string, b: string, p: char -> bool)
    requires (forall c | c in a :: !p(c)) && (b != "" ==> p(b[0]))
    ensures Until(a + b, p) == |a|
  {
    if b == "" {
      assert a + b == a;
      UntilNone(a, p);
    } else {
      assert a + b == a + [b[0]] + b[1..];
      UntilFirst(a, b[0], b[1..], p);
    }
  }

  lemma WordsOfParts(header: string, gap: string, rest: string, after: string)
    requires HeaderParts(header, gap, rest, after)
    ensures SplitSpace(header) == (SCHEME, Some(rest))
  {
    var tail := gap + (rest + after);
    UntilIs(SCHEME, tail, IsSpace);
    assert header[..8] == SCHEME && header[8..] == tail;
    UntilIs(gap, rest + after, c => !IsSpace(c));
    assert tail[|gap|..] == rest + after;
    UntilIs(rest, after, IsSpace);
    assert (rest + after)[..|rest|] == rest;
  }

  lemma ThreeCuts(s: string, i: nat, j: nat, k: nat)
    requires i <= |s| && j <= |s[i..]| && k <= |s[i..][j..]|
    ensures s == s[..i] + (s[i..][..j] + (s[i..][j..][..k] + s[i..][j..][k..]))
  {
    assert s[i..][j..] == s[i..][j..][..k] + s[i..][j..][k..];
    assert s[i..] == s[i..][..j] + s[i..][j..];
  }

  /** What Until stops before, and at. */
  lemma UntilCuts(s: string, p: char -> bool)
    ensures var n := Until(s, p);
            (forall c | c in s[..n] :: !p(c)) && (s[n..] != "" ==> p(s[n..][0]))
  {
  }

  lemma PartsOfWords(header: string, rest: string)
    requires SplitSpace(header) == (SCHEME, Some(rest)) && rest != ""
    ensures HeaderIs(header, rest)
  {
    hide Until, IsSpace, HeaderIs;
    var i := Until(header, IsSpace);
    assert i < |header|;
    var tail := header[i..];
    var j := Until(tail, c => !IsSpace(c));
    var more := tail[j..];
    var k := Until(more, IsSpace);
    assert header[..i] == SCHEME && more[..k] == rest;
    hide SplitSpace;
    UntilCuts(header, IsSpace);
    UntilCuts(tail, c => !IsSpace(c));
    UntilCuts(more, IsSpace);
    ThreeCuts(header, i, j, k);
    PartsAreParts(header, tail[..j], rest, more[k..]) by {
      assert tail[j..] == more;
      assert IsSpace(tail[0]);
    }
  }

  lemma PartsAreParts(header: string, gap: string, rest: string, after: string)
    requires header == SCHEME + (gap + (rest + after)) && rest != ""
    requires (forall c | c in gap :: IsSpace(c)) && (forall c | c in rest :: !IsSpace(c))
    requires gap != "" && (after != "" ==> IsSpace(after[0]))
    ensures HeaderIs(header, rest)
  {
    hide IsSpace;
    assert HeaderParts(header, gap, rest, after);
  }

  lemma HeaderIff(header: string, rest: string)
    requires rest != ""
    ensures SplitSpace(header) == (SCHEME, Some(rest)) <==> HeaderIs(header, rest)
  {
    hide SplitSpace, HeaderParts;
    if HeaderIs(header, rest) {
      var gap, after :| HeaderParts(header, gap, rest, after);
      WordsOfParts(header, gap, rest, after);
    }
    if SplitSpace(header) == (SCHEME, Some(rest)) {
      PartsOfWords(header, rest);
    }
  }

  // --- the pieces --------------------------------------------------------------------------------

  /** The pieces with separators between them. */
  function Join(pieces: seq<string>, sep: char): string
    requires pieces != []
  {
    if |pieces| == 1 then pieces[0] else pieces[0] + [sep] + Join(pieces[1..], sep)
  }

  lemma {:induction false} JoinUndoesSplit(s: string, sep: char)
    ensures Join(Split(s, sep), sep) == s
    decreases |s|
  {
    SplitStep(s, sep);
    hide Until, Split;
    var i := Until(s, Is(sep));
    if i < |s| {
      JoinUndoesSplit(s[i + 1..], sep);
      JoinStep(s[..i], Split(s[i + 1..], sep), sep);
      CutOnce(s, i);
    }
  }

  lemma SplitStep(s: string, sep: char)
    ensures var i := Until(s, Is(sep));
            if i == |s| then Split(s, sep) == [s]
            else s[i] == sep && Split(s, sep) == [s[..i]] + Split(s[i + 1..], sep)
  {
    hide Until;
  }

  lemma CutOnce(s: string, i: nat)
    requires i < |s|
    ensures s == s[..i] + [s[i]] + s[i + 1..]
  {
  }

  lemma JoinStep(piece: string, pieces: seq<string>, sep: char)
    requires pieces != []
    ensures Join([piece] + pieces, sep) == piece + [sep] + Join(pieces, sep)
  {
    assert ([piece] + pieces)[1..] == pieces;
  }

  lemma {:induction false} SplitUndoesJoin(pieces: seq<string>, sep: char)
    requires pieces != [] && forall i | 0 <= i < |pieces| :: sep !in pieces[i]
    ensures Split(Join(pieces, sep), sep) == pieces
  {
    if |pieces| == 1 {
      SplitLast(pieces[0], sep);
    } else {
      SplitUndoesJoin(pieces[1..], sep);
      SplitOff(pieces[0], sep, Join(pieces[1..], sep));
      assert pieces == [pieces[0]] + pieces[1..];
    }
  }

  // --- the assignments ---------------------------------------------------------------------------

  /** piece is name=value, cut at its first equals sign, and the name is not empty. */
  predicate Assigns(piece: string, name: string, value: string) {
    piece == name + "=" + value && name != "" && '=' !in name
  }

  ghost predicate IsAssignment(piece: string) { exists name: string, value: string :: Assigns(piece, name, value) }

  /** Piece i assigns `value` to `key`, both trimmed. */
  ghost predicate Gives(pieces: seq<string>, i: nat, key: string, value: string) {
    && i < |pieces|
    && exists name: string, raw: string :: Assigns(pieces[i], name, raw) && Trim(name) == key && Trim(raw) == value
  }

  /** m holds what the pieces assign, the last piece winning. */
  ghost predicate Holds(m: map<string, string>, pieces: seq<string>) {
    && (forall key | key in m :: exists i: nat :: Gives(pieces, i, key, m[key])
                                                  && forall j: nat, v: string | i < j :: !Gives(pieces, j, key, v))
    && (forall i: nat, key: string, v: string | Gives(pieces, i, key, v) :: key in m)
  }

  lemma AssignmentIff(piece: string)
    ensures var eq := Until(piece, c => c == '=');
            && (IsAssignment(piece) <==> 0 < eq < |piece|)
            && (forall name: string, value: string | Assigns(piece, name, value) ::
                  eq < |piece| && name == piece[..eq] && value == piece[eq + 1..])
            && (0 < eq < |piece| ==> Assigns(piece, piece[..eq], piece[eq + 1..]))
  {
    hide Until, Assigns;
    var eq := Until(piece, c => c == '=');
    forall name: string, value: string | Assigns(piece, name, value)
      ensures 0 < eq == |name| < |piece| && name == piece[..eq] && value == piece[eq + 1..]
    {
      AssignsAtTheFirst(piece, name, value);
    }
    if 0 < eq < |piece| {
      CutAssigns(piece);
    }
  }

  lemma AssignsAtTheFirst(piece: string, name: string, value: string)
    requires Assigns(piece, name, value)
    ensures Until(piece, c => c == '=') == |name| < |piece| && name != ""
    ensures name == piece[..|name|] && value == piece[|name| + 1..]
  {
    UntilFirst(name, '=', value, c => c == '=');
  }

  lemma CutAssigns(piece: string)
    requires 0 < Until(piece, c => c == '=') < |piece|
    ensures var eq := Until(piece, c => c == '='); Assigns(piece, piece[..eq], piece[eq + 1..])
  {
    var eq := Until(piece, c => c == '=');
    hide Until;
    assert piece == piece[..eq] + "=" + piece[eq + 1..];
  }

  lemma GivesOneMore(pieces: seq<string>, piece: string, i: nat, key: string, v: string)
    ensures Gives(pieces + [piece], i, key, v)
            <==> Gives(pieces, i, key, v) || (i == |pieces| && Gives([piece], 0, key, v))
  {
  }

  lemma HoldsOneMore(m: map<string, string>, pieces: seq<string>, piece: string, key: string, value: string)
    requires Holds(m, pieces)
    requires forall k: string, v: string :: Gives([piece], 0, k, v) <==> k == key && v == value
    ensures Holds(m[key := value], pieces + [piece])
  {
    var more, t := pieces + [piece], m[key := value];
    hide Gives;
    forall i: nat, k: string, v: string
      ensures Gives(more, i, k, v) <==> Gives(pieces, i, k, v) || (i == |pieces| && k == key && v == value)
    {
      GivesOneMore(pieces, piece, i, k, v);
    }
    GivesInside(pieces);
    forall k | k in t
      ensures exists i: nat :: Gives(more, i, k, t[k]) && forall j: nat, v: string | i < j :: !Gives(more, j, k, v)
    {
      if k == key {
        assert Gives(more, |pieces|, k, t[k]);
      } else {
        var i: nat :| Gives(pieces, i, k, m[k]) && forall j: nat, v: string | i < j :: !Gives(pieces, j, k, v);
        assert Gives(more, i, k, t[k]);
      }
    }
  }

  lemma GivesInside(pieces: seq<string>)
    ensures forall i: nat, k: string, v: string | Gives(pieces, i, k, v) :: i < |pieces|
  {
  }

  /** The loop over the pieces succeeds exactly if each is an assignment, and then holds what they assign. */
  lemma {:induction false} FieldsIff(pieces: seq<string>)
    ensures Fields(pieces).Ok? <==> forall i | 0 <= i < |pieces| :: IsAssignment(pieces[i])
    ensures Fields(pieces).Ok? ==> Holds(Fields(pieces).value, pieces)
    ensures Fields(pieces).Err? ==> Fields(pieces).error == MalformedAuth
  {
    hide Gives, IsAssignment;
    if pieces == [] {
      GivesInside([]);
    } else {
      var n := |pieces| - 1;
      var piece := pieces[n];
      FieldsIff(pieces[..n]);
      AssignmentIff(piece);
      var eq := Until(piece, c => c == '=');
      assert pieces == pieces[..n] + [piece];
      if Fields(pieces[..n]).Ok? && 0 < eq < |piece| {
        GivesOne(piece, eq);
        HoldsOneMore(Fields(pieces[..n]).value, pieces[..n], piece, Trim(piece[..eq]), Trim(piece[eq + 1..]));
      }
    }
  }

  lemma GivesOne(piece: string, eq: nat)
    requires eq == Until(piece, c => c == '=') && 0 < eq < |piece|
    ensures forall k: string, v: string ::
              Gives([piece], 0, k, v) <==> k == Trim(piece[..eq]) && v == Trim(piece[eq + 1..])
  {
    hide Trim;
    AssignmentIff(piece);
    assert [piece][0] == piece;
    forall k: string, v: string
      ensures Gives([piece], 0, k, v) <==> k == Trim(piece[..eq]) && v == Trim(piece[eq + 1..])
    {
      assert Assigns([piece][0], piece[..eq], piece[eq + 1..]);
    }
  }

  /** Nothing to trim. */
  predicate Trimmed(t: string) { t != "" ==> !IsSpace(t[0]) && !IsSpace(t[|t| - 1]) }

  lemma {:induction false} TrimTakesTheEnds(s: string) returns (p: string, q: string)
    ensures s == p + (Trim(s) + q) && AllSpace(p) && AllSpace(q) && Trimmed(Trim(s))
    decreases |s|
  {
    if s != "" && IsSpace(s[0]) {
      p, q := TrimTakesTheEnds(s[1..]);
      assert s == [s[0]] + s[1..];
      p := [s[0]] + p;
    } else if s != "" && IsSpace(s[|s| - 1]) {
      p, q := TrimTakesTheEnds(s[..|s| - 1]);
      assert s == s[..|s| - 1] + [s[|s| - 1]];
      assert p + (Trim(s) + q) + [s[|s| - 1]] == p + (Trim(s) + (q + [s[|s| - 1]]));
      q := q + [s[|s| - 1]];
    } else {
      p, q := "", "";
    }
  }

  /** Trimming is the one way to take white space off both ends and leave none there. */
  lemma {:induction false} TrimIs(p: string, t: string, q: string)
    requires AllSpace(p) && AllSpace(q) && Trimmed(t)
    ensures Trim(p + (t + q)) == t
    decreases |p| + |q|
  {
    hide Trim, IsSpace;
    var s := p + (t + q);
    if p != "" {
      assert s[0] == p[0] && s[1..] == p[1..] + (t + q);
      TrimIs(p[1..], t, q);
      TrimStep(s);
    } else if q != "" {
      assert s == t + q;
      if t == "" {
        assert s[0] == q[0] && s[1..] == "" + (t + q[1..]);
        TrimIs("", t, q[1..]);
      } else {
        assert s[0] == t[0] && s[|s| - 1] == q[|q| - 1];
        assert s[..|s| - 1] == "" + (t + q[..|q| - 1]);
        TrimIs("", t, q[..|q| - 1]);
      }
      TrimStep(s);
    } else {
      assert s == t;
      TrimStep(s);
    }
  }

  lemma TrimStep(s: string)
    ensures s == "" ==> Trim(s) == s
    ensures s != "" && IsSpace(s[0]) ==> Trim(s) == Trim(s[1..])
    ensures s != "" && !IsSpace(s[0]) && IsSpace(s[|s| - 1]) ==> Trim(s) == Trim(s[..|s| - 1])
    ensures s != "" && !IsSpace(s[0]) && !IsSpace(s[|s| - 1]) ==> Trim(s) == s
  {
  }

  // --- any header ------------------------------------------------------------------------------------

  /** The three values a header must assign, and what they must be. */
  predicate Reads(m: map<string, string>, a: Authorization) {
    && "keyId" in m && m["keyId"] != "" && m["keyId"] == a.keyId
    && "ts" in m && m["ts"] != "" && ParseInt(m["ts"]) == Some(a.ts)
    && "sig" in m && m["sig"] != "" && (forall i | 0 <= i < |m["sig"]| :: IsHexDigit(m["sig"][i])) && m["sig"] == a.sig
  }

  lemma ReadIff(m: map<string, string>, a: Authorization)
    ensures Read(m) == Ok(a) <==> Reads(m, a)
    ensures Read(m).Err? ==> Read(m).error == MalformedAuth
  {
  }

  /** The header is the scheme and, separated by commas, assignments, of which the last for each name reads as a. */
  ghost predicate Spells(header: string, pieces: seq<string>, m: map<string, string>, a: Authorization) {
    && pieces != [] && (forall i | 0 <= i < |pieces| :: ',' !in pieces[i] && IsAssignment(pieces[i]))
    && Join(pieces, ',') != "" && HeaderIs(header, Join(pieces, ','))
    && Holds(m, pieces) && Reads(m, a)
  }

  lemma HoldsOnce(m: map<string, string>, n: map<string, string>, pieces: seq<string>)
    requires Holds(m, pieces) && Holds(n, pieces)
    ensures m == n
  {
    forall key | key in m
      ensures key in n && n[key] == m[key]
    {
      var i: nat :| Gives(pieces, i, key, m[key]) && forall j: nat, v: string | i < j :: !Gives(pieces, j, key, v);
      SameGift(m, n, pieces, i, key);
    }
    forall key | key in n
      ensures key in m
    {
      var i: nat :| Gives(pieces, i, key, n[key]);
    }
  }

  lemma SameGift(m: map<string, string>, n: map<string, string>, pieces: seq<string>, i: nat, key: string)
    requires key in m && Holds(n, pieces) && Gives(pieces, i, key, m[key])
    requires forall j: nat, v: string | i < j :: !Gives(pieces, j, key, v)
    ensures key in n && n[key] == m[key]
  {
    var k: nat :| Gives(pieces, k, key, n[key]) && forall j: nat, v: string | k < j :: !Gives(pieces, j, key, v);
    assert i == k;
    AssignmentIff(pieces[i]);
  }

  /** For every header: it parses to a exactly if it spells a; and otherwise it is malformed. */
  lemma ParseIff(header: string, a: Authorization)
    ensures Parse(header) == Ok(a)
            <==> exists pieces: seq<string>, m: map<string, string> :: Spells(header, pieces, m, a)
    ensures Parse(header).Err? ==> Parse(header).error == MalformedAuth
  {
    hide SplitSpace, Split, Fields, Read, Reads, Holds, HeaderIs, IsAssignment, Join;
    if Parse(header) == Ok(a) {
      ParsedSpells(header, a);
    }
    if exists pieces: seq<string>, m: map<string, string> :: Spells(header, pieces, m, a) {
      var pieces: seq<string>, m: map<string, string> :| Spells(header, pieces, m, a);
      SpelledParses(header, pieces, m, a);
    }
    var (scheme, rest) := SplitSpace(header);
    if rest.Some? {
      FieldsIff(Split(rest.value, ','));
      if Fields(Split(rest.value, ',')).Ok? {
        ReadIff(Fields(Split(rest.value, ',')).value, a);
      }
    }
  }

  lemma ParsedSpells(header: string, a: Authorization)
    requires Parse(header) == Ok(a)
    ensures exists pieces: seq<string>, m: map<string, string> :: Spells(header, pieces, m, a)
  {
    hide SplitSpace, Fields, Read, Reads, Holds, HeaderIs, IsAssignment, Join;
    var rest := SplitSpace(header).1.value;
    var pieces := Split(rest, ',');
    var m := Fields(pieces).value;
    HeaderIff(header, rest);
    JoinUndoesSplit(rest, ',');
    FieldsIff(pieces);
    ReadIff(m, a);
    assert Spells(header, pieces, m, a);
  }

  lemma SpelledParses(header: string, pieces: seq<string>, m: map<string, string>, a: Authorization)
    requires Spells(header, pieces, m, a)
    ensures Parse(header) == Ok(a)
  {
    hide SplitSpace, Split, Fields, Read, Reads, Holds, HeaderIs, IsAssignment, Join;
    HeaderIff(header, Join(pieces, ','));
    SplitUndoesJoin(pieces, ',');
    FieldsIff(pieces);
    HoldsOnce(Fields(pieces).value, m, pieces);
    ReadIff(m, a);
  }

  // --- any request -----------------------------------------------------------------------------------

  /** The header's timestamp is within the window, either way. */
  predicate Within(now: int, ts: int, window: int) { -window <= now - ts <= window }

  /** The signature is that of this request, at the header's timestamp, under the secret. */
  predicate SignedBy(c: Config, a: Authorization, secret: string, verb: string, path: string, body: bytes) {
    FromHex(a.sig) == c.hmac(FromHex(secret), Canonical(c, verb, path, a.ts, body))
  }

  predicate Known(keys: map<string, string>, keyId: string) { keyId in keys && keys[keyId] != "" }

  /**
   For every header and request: accepted, as k, exactly if the header parses, its key id is k and
   has a secret, its timestamp is in the window, and its signature's bytes are the HMAC of this
   request under that secret.
   */
  lemma VerifyAcceptsIff(c: Config, authorization: Option<string>, verb: string, path: string, body: bytes,
                         keys: map<string, string>, now: int, window: int, k: string)
    ensures Verify(c, authorization, verb, path, body, keys, now, window) == Ok(k)
            <==> && authorization.Some? && authorization.value != "" && Parse(authorization.value).Ok?
                 && var a := Parse(authorization.value).value;
                    && a.keyId == k && Known(keys, k) && Within(now, a.ts, window)
                    && SignedBy(c, a, keys[k], verb, path, body)
  {
  }

  /** And which error it is otherwise: the first of these that applies. */
  lemma VerifyErrsIff(c: Config, authorization: Option<string>, verb: string, path: string, body: bytes,
                      keys: map<string, string>, now: int, window: int)
    ensures var r := Verify(c, authorization, verb, path, body, keys, now, window);
            var given := authorization.Some? && authorization.value != "";
            && (r == Err(MissingAuth) <==> !given)
            && (r == Err(MalformedAuth) <==> given && Parse(authorization.value).Err?)
            && (given && Parse(authorization.value).Ok? ==>
                  var a := Parse(authorization.value).value;
                  && (r == Err(UnknownKey) <==> !Known(keys, a.keyId))
                  && (r == Err(ClockSkew) <==> Known(keys, a.keyId) && !Within(now, a.ts, window))
                  && (r == Err(BadSignature) <==>
                        && Known(keys, a.keyId) && Within(now, a.ts, window)
                        && !SignedBy(c, a, keys[a.keyId], verb, path, body)))
  {
    hide Parse, FromHex, Canonical;
    if authorization.Some? {
      ParseErr(authorization.value);
    }
  }

  lemma ParseErr(header: string)
    ensures Parse(header).Err? ==> Parse(header).error == MalformedAuth
  {
    ParseIff(header, Authorization("", 0, ""));
  }

  // --- the wire ----------------------------------------------------------------------------------------

  /** The header a request is sent with. */
  lemma SignedHeader(c: Config, verb: string, path: string, body: bytes, keyId: string, secret: string, ts: int)
    ensures Sign(c, verb, path, body, keyId, secret, ts)
            == "VeraHmac keyId=" + keyId + (",ts=" + Decimal(ts) + (",sig="
               + ToHex(c.hmac(FromHex(secret), Canonical(c, verb, path, ts, body)))))
  {
    var ts', sig := Decimal(ts), ToHex(c.hmac(FromHex(secret), Canonical(c, verb, path, ts, body)));
    assert "VeraHmac" + " " + ("keyId" + "=" + keyId + "," + ("ts" + "=" + ts' + "," + ("sig" + "=" + sig)))
        == "VeraHmac keyId=" + keyId + (",ts=" + ts' + (",sig=" + sig));
  }

  /** The string it signs, if neither method nor path breaks the line: its four lines. */
  lemma CanonicalLines(c: Config, verb: string, path: string, ts: int, body: bytes)
    requires Assumed(c) && '\n' !in verb && '\n' !in path
    ensures Split(Canonical(c, verb, path, ts, body), '\n') == [ToUpper(verb), path, Decimal(ts), c.sha256Hex(body)]
  {
    UpperHasNoNewline(verb);
    HexIsClean(c.sha256Hex(body));
    FourLines(ToUpper(verb), path, Decimal(ts), c.sha256Hex(body));
  }

  lemma FourLines(u: string, path: string, ts: string, hash: string)
    requires '\n' !in u && '\n' !in path && '\n' !in ts && '\n' !in hash
    ensures Split(u + "\n" + (path + "\n" + ts + "\n" + hash), '\n') == [u, path, ts, hash]
  {
    hide Split;
    var rest := ts + "\n" + hash;
    assert path + "\n" + ts + "\n" + hash == path + ['\n'] + rest;
    SplitOff(u, '\n', path + ['\n'] + rest);
    SplitOff(path, '\n', rest);
    SplitOff(ts, '\n', hash);
    SplitLast(hash, '\n');
  }
}
