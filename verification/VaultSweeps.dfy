/**
 The sweeper run by run, whenever the clock is read: exactly which runs it changes the claims
 of, and exactly when it takes a row from under a claim that was granted.
 */
module VaultSweeps {
  import opened Prelude
  import opened Envelope
  import opened VaultProtocol
  import opened VaultPurge
  import VaultStore
  import VaultTokens

  // --- overtaken claims ------------------------------------------------------------------------

  ghost predicate Claimed(claims: seq<Claim>, token: string) { exists x :: x in claims && x.token == token }

  /**
   The call is about to claim a token that by its own clock is good: minted, unclaimed and not
   expired; but a sweep with a later clock has taken the row away.
   */
  ghost predicate Overtaken(c: Config, t: Tokens, clock: int, k: nat) {
    && k in t.consumers && t.consumers[k].at == AtClaim
    && var o := t.consumers[k];
       && o.token in t.minted && o.token !in t.rows && !Claimed(t.claims, o.token)
       && ClaimClock(c, clock, o) < t.minted[o.token].expiresAt
  }

  ghost predicate Overtakes(c: Config, s: State, e: Event) {
    (e.ConsumeStep? || e.ConsumeLost?) && Overtaken(c, s.tokens, s.clock, e.k)
  }

  /** Some claim of the run is overtaken. */
  ghost predicate AnyOvertaken(c: Config, s: State, events: seq<Event>)
    decreases |events|
  {
    events != [] && (Overtakes(c, s, events[0]) || AnyOvertaken(c, Apply(c, s, events[0]), events[1..]))
  }

  /** In a vault never swept every minted token has its row, marked used exactly if it was claimed. */
  ghost predicate AllKept(rows: map<string, Token>, minted: map<string, Token>, claims: seq<Claim>) {
    && rows.Keys == minted.Keys
    && (forall token | token in rows ::
          rows[token].expiresAt == minted[token].expiresAt && (rows[token].usedAt.Some? <==> Claimed(claims, token)))
    && (forall x | x in claims :: x.token in minted)
  }

  ghost predicate Kept(u: Tokens) { AllKept(u.rows, u.minted, u.claims) }

  lemma ClaimKeepsAll(c: Config, u: Tokens, clock: int, k: nat, o: Consumer)
    requires Kept(u)
    ensures Kept(ClaimToken(c, u, clock, k, o))
  {
    var now := ClaimClock(c, clock, o);
    if Claimable(u, o.token, now) {
      var more := u.claims + [Claim(k, o.token, now)];
      assert more[|u.claims|] == Claim(k, o.token, now);
      forall token
        ensures Claimed(more, token) <==> Claimed(u.claims, token) || token == o.token
      {
        assert forall x | x in u.claims :: x in more;
      }
    }
  }

  lemma MintKeepsAll(rows: map<string, Token>, minted: map<string, Token>, claims: seq<Claim>,
                     token: string, row: Token)
    requires AllKept(rows, minted, claims) && token !in minted && row.usedAt.None?
    ensures AllKept(rows[token := row], minted[token := row], claims)
  {
  }

  lemma StepKeepsAll(c: Config, u: State, e: Event)
    requires Kept(u.tokens) && !e.PurgeTokens?
    ensures Kept(Apply(c, u, e).tokens)
  {
    hide AllKept, CardOf, Decrypt, ApplyStore, ClaimToken;
    match e
    case MintToken(entryId, amount, currency, token) =>
      if entryId in u.store.entries && token !in u.tokens.minted {
        MintKeepsAll(u.tokens.rows, u.tokens.minted, u.tokens.claims, token,
                     Token(amount, currency, entryId, u.clock + c.ttl, None));
      }
    case ConsumeStep(k) =>
      if k in u.tokens.consumers { ClaimKeepsAll(c, u.tokens, u.clock, k, u.tokens.consumers[k]); }
    case ConsumeLost(k) =>
      if k in u.tokens.consumers { ClaimKeepsAll(c, u.tokens, u.clock, k, u.tokens.consumers[k]); }
    case _ =>
  }

  /** Two matching vaults disagree about a claim exactly if it is overtaken. */
  lemma DisagreeIffOvertaken(c: Config, p: State, u: State, e: Event)
    requires TokensMatch(p.tokens, u.tokens) && Kept(u.tokens) && p.clock == u.clock
    requires forall token | token in p.tokens.rows :: token in p.tokens.minted
    ensures EventAgrees(c, p, u, e) <==> !Overtakes(c, p, e)
  {
    hide Claimed;
  }

  // --- the vaults up to the first overtaken claim, and after it --------------------------------

  /** A token is only in the table if it was minted. */
  predicate RowsAreMinted(t: Tokens) { t.rows.Keys <= t.minted.Keys }

  lemma RowsStayMinted(c: Config, s: State, e: Event)
    requires RowsAreMinted(s.tokens)
    ensures RowsAreMinted(Apply(c, s, e).tokens)
  {
    hide CardOf, Decrypt, ApplyStore;
  }

  ghost predicate Paired(p: State, u: State) {
    && p.store == u.store && p.clock == u.clock
    && TokensMatch(p.tokens, u.tokens) && Kept(u.tokens) && RowsAreMinted(p.tokens)
  }

  /** Whoever has made its claim makes no other, and claims are only added. */
  lemma {:induction false} LaterClaims(c: Config, s: State, events: seq<Event>, k: nat)
    requires k in s.tokens.consumers && !s.tokens.consumers[k].at.AtClaim?
    ensures var t := Run(c, s, events).tokens;
            && s.tokens.claims <= t.claims
            && forall i | |s.tokens.claims| <= i < |t.claims| :: t.claims[i].k != k
    decreases |events|
  {
    if events != [] {
      hide ApplyTokens, ApplyStore;
      ClaimsOfStep(c, s, events[0], k);
      LaterClaims(c, Apply(c, s, events[0]), events[1..], k);
    }
  }

  lemma ClaimsOfStep(c: Config, s: State, e: Event, k: nat)
    requires k in s.tokens.consumers && !s.tokens.consumers[k].at.AtClaim?
    ensures var t := ApplyTokens(c, s, e);
            && k in t.consumers && !t.consumers[k].at.AtClaim?
            && (t.claims == s.tokens.claims || exists x: Claim :: x.k != k && t.claims == s.tokens.claims + [x])
  {
    hide CardOf, Decrypt;
    if e.ConsumeStep? || e.ConsumeLost? {
      if e.k in s.tokens.consumers && s.tokens.consumers[e.k].at == AtClaim {
        var o := s.tokens.consumers[e.k];
        var x := Claim(e.k, o.token, ClaimClock(c, s.clock, o));
        assert x.k != k;
      }
    }
  }

  /** An overtaken claim is granted by the vault never swept, and by that one only. */
  lemma OvertakenSplits(c: Config, p: State, u: State, e: Event)
    requires Paired(p, u) && Overtakes(c, p, e)
    ensures var p', u' := Apply(c, p, e).tokens, Apply(c, u, e).tokens;
            && p'.claims == p.tokens.claims && e.k in p'.consumers && !p'.consumers[e.k].at.AtClaim?
            && e.k in u'.consumers && !u'.consumers[e.k].at.AtClaim?
            && |u'.claims| == |p.tokens.claims| + 1 && u.tokens.claims <= u'.claims
            && u'.claims[|p.tokens.claims|].k == e.k
  {
    hide Claimed, CardOf, Decrypt;
    assert SameAnswer(p.tokens.consumers[e.k], u.tokens.consumers[e.k]);
  }

  lemma {:induction false} SweptRun(c: Config, p: State, u: State, events: seq<Event>)
    requires Paired(p, u)
    ensures Run(c, p, events).tokens.claims == Run(c, u, WithoutPurges(events)).tokens.claims
            <==> !AnyOvertaken(c, p, events)
    ensures !AnyOvertaken(c, p, events) ==>
              TokensMatch(Run(c, p, events).tokens, Run(c, u, WithoutPurges(events)).tokens)
    decreases |events|
  {
    if events != [] {
      hide Apply, Overtakes, EventAgrees, TokensMatch, Kept, RowsAreMinted;
      var e := events[0];
      if e.PurgeTokens? {
        PurgeKeepsPaired(c, p, u, e);
        SweptRun(c, Apply(c, p, e), u, events[1..]);
      } else {
        assert WithoutPurges(events)[1..] == WithoutPurges(events[1..]);
        if Overtakes(c, p, e) {
          OvertakenRun(c, p, u, events);
        } else {
          StepKeepsPaired(c, p, u, e);
          SweptRun(c, Apply(c, p, e), Apply(c, u, e), events[1..]);
        }
      }
    }
  }

  lemma PurgeKeepsPaired(c: Config, p: State, u: State, e: Event)
    requires Paired(p, u) && e.PurgeTokens?
    ensures Paired(Apply(c, p, e), u) && !Overtakes(c, p, e)
  {
    hide Kept, TokensMatch;
    PurgeApplies(c, p, e.now);
    PurgeMatches(p.tokens, u.tokens, p.clock, e.now);
  }

  lemma StepKeepsPaired(c: Config, p: State, u: State, e: Event)
    requires Paired(p, u) && !e.PurgeTokens? && !Overtakes(c, p, e)
    ensures Paired(Apply(c, p, e), Apply(c, u, e))
  {
    DisagreeIffOvertaken(c, p, u, e);
    hide Kept, TokensMatch, Overtakes, EventAgrees, Apply;
    ApplyMatches(c, p, u, e);
    StepKeepsAll(c, u, e);
    RowsStayMinted(c, p, e);
  }

  lemma OvertakenRun(c: Config, p: State, u: State, events: seq<Event>)
    requires Paired(p, u) && events != [] && Overtakes(c, p, events[0])
    ensures Run(c, p, events).tokens.claims != Run(c, u, WithoutPurges(events)).tokens.claims
  {
    hide Apply;
    var e, rest := events[0], WithoutPurges(events[1..]);
    OvertakenSplits(c, p, u, e);
    hide Overtakes, Paired;
    assert WithoutPurges(events) == [e] + rest && WithoutPurges(events)[1..] == rest;
    var n := |p.tokens.claims|;
    LaterClaims(c, Apply(c, p, e), events[1..], e.k);
    LaterClaims(c, Apply(c, u, e), rest, e.k);
    var ps, us := Run(c, p, events).tokens.claims, Run(c, u, WithoutPurges(events)).tokens.claims;
    assert us[n].k == e.k;
    assert n < |ps| ==> ps[n].k != e.k;
  }

  /**
   Run by run, wherever claims read their clock: a vault that is swept grants the same claims as
   one that never is, to the same calls and in the same order, if and only if no claim of the
   run is overtaken.  And then every call is told the same in both, but for a row gone from under
   its claim, or a miss that is no longer explained.
   */
  lemma SweepIsInvisibleIffNothingIsOvertaken(c: Config, ring: KeyRing, clock: int, events: seq<Event>)
    ensures Run(c, Init(ring, clock), events).tokens.claims
            == Run(c, Init(ring, clock), WithoutPurges(events)).tokens.claims
            <==> !AnyOvertaken(c, Init(ring, clock), events)
    ensures !AnyOvertaken(c, Init(ring, clock), events) ==>
              var p, u := Run(c, Init(ring, clock), events), Run(c, Init(ring, clock), WithoutPurges(events));
              && p.tokens.minted == u.tokens.minted && p.tokens.consumers.Keys == u.tokens.consumers.Keys
              && forall k | k in p.tokens.consumers :: SameAnswer(p.tokens.consumers[k], u.tokens.consumers[k])
  {
    SweptRun(c, Init(ring, clock), Init(ring, clock), events);
  }

  // --- a row taken from under a claim ------------------------------------------------------------

  /** Some sweep of the stretch takes rows that expired at `expiresAt`. */
  ghost predicate SweptIn(c: Config, s: State, events: seq<Event>, expiresAt: int)
    decreases |events|
  {
    events != [] && (Sweeps(s, events[0], expiresAt) || SweptIn(c, Apply(c, s, events[0]), events[1..], expiresAt))
  }

  predicate Sweeps(s: State, e: Event, expiresAt: int) { e.PurgeTokens? && expiresAt < e.now <= s.clock }

  /** Call k has claimed `token`, and is about to read it. */
  predicate Reading(t: Tokens, k: nat, token: string, minted: Token) {
    && k in t.consumers && t.consumers[k].at == AtRead && t.consumers[k].token == token
    && token in t.minted && t.minted[token] == minted
    && (token in t.rows ==> t.rows[token].expiresAt == minted.expiresAt)
  }

  lemma ReadingStep(c: Config, s: State, e: Event, k: nat, token: string, minted: Token)
    requires Reading(s.tokens, k, token, minted) && e != ConsumeStep(k)
    ensures var t := Apply(c, s, e).tokens;
            && Reading(t, k, token, minted)
            && (token in t.rows <==> token in s.tokens.rows && !Sweeps(s, e, minted.expiresAt))
  {
    hide CardOf, Decrypt, ApplyStore;
  }

  lemma {:induction false} ReadingRun(c: Config, s: State, events: seq<Event>, k: nat, token: string, minted: Token)
    requires Reading(s.tokens, k, token, minted) && ConsumeStep(k) !in events
    ensures var t := Run(c, s, events).tokens;
            && Reading(t, k, token, minted)
            && (token in t.rows <==> token in s.tokens.rows && !SweptIn(c, s, events, minted.expiresAt))
    decreases |events|
  {
    hide Apply, Reading, Sweeps;
    if events != [] {
      ReadingStep(c, s, events[0], k, token, minted);
      ReadingRun(c, Apply(c, s, events[0]), events[1..], k, token, minted);
    }
  }

  lemma ReadAnswers(c: Config, s: Store, t: Tokens, k: nat, o: Consumer)
    ensures var u := ReadAndDecrypt(c, s, t, k, o);
            && k in u.consumers
            && (u.consumers[k].at == Failed(RowGone) <==> o.token !in t.rows || t.rows[o.token].entryId !in s.entries)
  {
    hide CardOf, Decrypt;
  }

  lemma RowsHaveEntries(c: Config, s: State, token: string)
    requires VaultStore.Inv(c, s.store) && VaultTokens.Inv(s.tokens, s.store.origin) && token in s.tokens.rows
    ensures s.tokens.rows[token].entryId in s.store.entries
  {
    hide VaultStore.EntryOk, VaultTokens.ConsumersOk, VaultTokens.ClaimsOk;
    assert s.tokens.rows[token].(usedAt := None) == s.tokens.minted[token];
  }

  /** In a reachable vault, a read finds its row gone exactly if its token's is. */
  lemma ReadFindsRow(c: Config, s: State, k: nat)
    requires VaultStore.Inv(c, s.store) && VaultTokens.Inv(s.tokens, s.store.origin)
    requires k in s.tokens.consumers && s.tokens.consumers[k].at == AtRead
    ensures var t := Apply(c, s, ConsumeStep(k)).tokens;
            && k in t.consumers
            && (t.consumers[k].at == Failed(RowGone) <==> s.tokens.consumers[k].token !in s.tokens.rows)
  {
    hide ReadAndDecrypt, VaultStore.Inv, VaultTokens.Inv;
    var o := s.tokens.consumers[k];
    ReadAnswers(c, s.store, s.tokens, k, o);
    if o.token in s.tokens.rows {
      RowsHaveEntries(c, s, o.token);
    }
  }

  lemma ClaimStartsReading(c: Config, s: State, k: nat)
    requires RowsAreMinted(s.tokens) && k in s.tokens.consumers && s.tokens.consumers[k].at == AtClaim
    requires forall token | token in s.tokens.rows :: s.tokens.rows[token].expiresAt == s.tokens.minted[token].expiresAt
    requires var o := s.tokens.consumers[k]; Claimable(s.tokens, o.token, ClaimClock(c, s.clock, o))
    ensures var o, t := s.tokens.consumers[k], Apply(c, s, ConsumeStep(k)).tokens;
            Reading(t, k, o.token, s.tokens.minted[o.token]) && o.token in t.rows
  {
  }

  /**
   Exactly when a granted claim comes to nothing: in any reachable vault, a call that has
   claimed its token is told that the row is gone if and only if, between its claim and its
   read, a sweep ran with a time past the token's expiry.
   */
  lemma RowGoneIffSweptBetween(c: Config, ring: KeyRing, clock: int, before: seq<Event>, k: nat, between: seq<Event>)
    requires Assumed(c) && ring.activeVersion in ring.keys && ConsumeStep(k) !in between
    requires var s := Run(c, Init(ring, clock), before);
             && k in s.tokens.consumers && s.tokens.consumers[k].at == AtClaim
             && Claimable(s.tokens, s.tokens.consumers[k].token, ClaimClock(c, s.clock, s.tokens.consumers[k]))
    ensures var s := Run(c, Init(ring, clock), before);
            var token := s.tokens.consumers[k].token;
            var claimed := Apply(c, s, ConsumeStep(k));
            var read := Apply(c, Run(c, claimed, between), ConsumeStep(k));
            && token in s.tokens.minted && k in read.tokens.consumers
            && (read.tokens.consumers[k].at == Failed(RowGone)
                <==> SweptIn(c, claimed, between, s.tokens.minted[token].expiresAt))
  {
    hide VaultStore.Inv, VaultTokens.ConsumersOk, VaultTokens.ClaimsOk, Apply, Reading;
    var s0 := Init(ring, clock);
    var s := Run(c, s0, before);
    var step, token := ConsumeStep(k), s.tokens.consumers[k].token;
    VaultTokens.RunInv(c, ring, clock, before);
    ClaimStartsReading(c, s, k);
    var claimed := Apply(c, s, step);
    ReadingRun(c, claimed, between, k, token, s.tokens.minted[token]);
    var all := before + [step] + between;
    RunAppend(c, s0, before, [step]);
    RunOne(c, s, step);
    RunAppend(c, s0, before + [step], between);
    VaultTokens.RunInv(c, ring, clock, all);
    var t := Run(c, claimed, between);
    IsReading(t.tokens, k, token, s.tokens.minted[token]);
    ReadFindsRow(c, t, k);
  }

  /** Such a call, in any vault that holds a card: the token is spent, and no card is returned. */
  lemma SweptUnderClaim(c: Config, s: State, entryId: string, token: string, k: nat) returns (events: seq<Event>)
    requires 0 < c.ttl && entryId in s.store.entries && token !in s.tokens.minted && k !in s.tokens.consumers
    ensures var t := Run(c, s, events).tokens;
            && t.claims == s.tokens.claims + [Claim(k, token, s.clock)]
            && k in t.consumers && t.consumers[k].at == Failed(RowGone)
  {
    var mint, call, step := MintToken(entryId, 1, "", token), ConsumeCall(k, token, 1, ""), ConsumeStep(k);
    var tick, purge := Tick(c.ttl + 1), PurgeTokens(s.clock + c.ttl + 1);
    RunTwo(c, s, mint, call);
    var s2 := Apply(c, Apply(c, s, mint), call);
    RunTwo(c, s2, step, tick);
    var s4 := Apply(c, Apply(c, s2, step), tick);
    assert Reading(s4.tokens, k, token, Token(1, "", entryId, s.clock + c.ttl, None));
    assert s4.tokens.claims == s.tokens.claims + [Claim(k, token, s.clock)] && s4.clock == s.clock + c.ttl + 1;
    RunTwo(c, s4, purge, step);
    RunAppend(c, s, [mint, call], [step, tick]);
    events := [mint, call] + [step, tick] + [purge, step];
    RunAppend(c, s, [mint, call] + [step, tick], [purge, step]);
    PurgedThenRead(c, s4, purge, k, token);
  }

  lemma PurgedThenRead(c: Config, s: State, purge: Event, k: nat, token: string)
    requires purge.PurgeTokens? && purge.now <= s.clock
    requires k in s.tokens.consumers && s.tokens.consumers[k].at == AtRead && s.tokens.consumers[k].token == token
    requires token in s.tokens.rows ==> s.tokens.rows[token].expiresAt < purge.now
    ensures var t := Apply(c, Apply(c, s, purge), ConsumeStep(k)).tokens;
            t.claims == s.tokens.claims && k in t.consumers && t.consumers[k].at == Failed(RowGone)
  {
    hide CardOf, Decrypt;
    PurgeApplies(c, s, purge.now);
  }

  lemma IsReading(t: Tokens, k: nat, token: string, minted: Token)
    requires Reading(t, k, token, minted)
    ensures k in t.consumers && t.consumers[k].at == AtRead && t.consumers[k].token == token
  {
  }
}
