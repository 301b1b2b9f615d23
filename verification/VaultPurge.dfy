/**
 The token sweeper against the vault without it: exactly which runs' claims it changes, when it
 can change none, and when it takes a row from under a claim.
 */
module VaultPurge {
  import opened Prelude
  import opened Envelope
  import opened VaultProtocol

  function WithoutPurges(events: seq<Event>): seq<Event> {
    if events == [] then []
    else if events[0].PurgeTokens? then WithoutPurges(events[1..])
    else [events[0]] + WithoutPurges(events[1..])
  }

  /** Swept rows against all rows. */
  ghost predicate RowsMatch(swept: map<string, Token>, all: map<string, Token>) {
    forall token | token in swept :: token in all && all[token] == swept[token]
  }

  /** What has been swept has expired. */
  ghost predicate GoneIsPast(swept: map<string, Token>, all: map<string, Token>, clock: int) {
    forall token | token in all && token !in swept :: all[token].expiresAt < clock
  }

  /**
   What a caller is told with the sweeper, against what it is told without it: the same, but
   for a row gone missing under a claim, and a miss that can no longer be explained.
   */
  predicate SameAnswer(swept: Consumer, all: Consumer) {
    || swept == all
    || (swept == all.(at := Failed(RowGone))
        && (all.at.Got? || all.at == Failed(Mismatch) || all.at == Failed(Undecryptable)))
    || (swept == all.(at := Failed(NotFound))
        && (all.at == Failed(AlreadyUsed) || all.at == Failed(TokenExpired)))
  }

  ghost predicate CallsMatch(swept: map<nat, Consumer>, all: map<nat, Consumer>) {
    && swept.Keys == all.Keys
    && forall k | k in swept :: SameAnswer(swept[k], all[k])
  }

  ghost predicate TokensMatch(p: Tokens, u: Tokens) {
    && p.minted == u.minted && p.claims == u.claims
    && RowsMatch(p.rows, u.rows)
    && CallsMatch(p.consumers, u.consumers)
  }

  /** The clock a claim of o compares with. */
  function ClaimClock(c: Config, clock: int, o: Consumer): int { if c.clockWithClaim then clock else o.now }

  /** The call's claim, if it is about to make one, is granted in both vaults or in neither. */
  predicate ClaimsAgree(c: Config, p: Tokens, u: Tokens, clock: int, k: nat) {
    k in p.consumers && p.consumers[k].at == AtClaim ==>
      var o := p.consumers[k];
      Claimable(p, o.token, ClaimClock(c, clock, o)) == Claimable(u, o.token, ClaimClock(c, clock, o))
  }

  predicate EventAgrees(c: Config, p: State, u: State, e: Event) {
    (e.ConsumeStep? || e.ConsumeLost?) ==> ClaimsAgree(c, p.tokens, u.tokens, p.clock, e.k)
  }

  lemma ClaimMatches(c: Config, p: Tokens, u: Tokens, clock: int, k: nat, o: Consumer)
    requires TokensMatch(p, u)
    requires Claimable(p, o.token, ClaimClock(c, clock, o)) == Claimable(u, o.token, ClaimClock(c, clock, o))
    ensures TokensMatch(ClaimToken(c, p, clock, k, o), ClaimToken(c, u, clock, k, o))
  {
  }

  lemma ReadMatches(c: Config, s: Store, p: Tokens, u: Tokens, k: nat, o: Consumer)
    requires TokensMatch(p, u) && k in p.consumers
    ensures TokensMatch(ReadAndDecrypt(c, s, p, k, o), ReadAndDecrypt(c, s, u, k, o))
  {
    ReadOnlyAnswers(c, s, p, k, o);
    ReadOnlyAnswers(c, s, u, k, o);
    hide ReadAndDecrypt, CallsMatch, OnlyAnswers, SameAnswer;
    ReadAnswersMatch(c, s, p, u, k, o);
    hide TokensMatch;
    AnswersMatch(p, u, k, ReadAndDecrypt(c, s, p, k, o), ReadAndDecrypt(c, s, u, k, o));
  }

  /** A read changes nothing but its call, and the log. */
  lemma ReadOnlyAnswers(c: Config, s: Store, t: Tokens, k: nat, o: Consumer)
    ensures var r := ReadAndDecrypt(c, s, t, k, o);
            k in r.consumers && OnlyAnswers(t, r, k)
  {
    hide CardOf, Decrypt;
  }

  predicate OnlyAnswers(t: Tokens, r: Tokens, k: nat) {
    && k in r.consumers && r.consumers == t.consumers[k := r.consumers[k]]
    && r.rows == t.rows && r.minted == t.minted && r.claims == t.claims
  }

  lemma ReadAnswersMatch(c: Config, s: Store, p: Tokens, u: Tokens, k: nat, o: Consumer)
    requires o.token in p.rows ==> o.token in u.rows && u.rows[o.token] == p.rows[o.token]
    ensures var r, q := ReadAndDecrypt(c, s, p, k, o), ReadAndDecrypt(c, s, u, k, o);
            k in r.consumers && k in q.consumers && SameAnswer(r.consumers[k], q.consumers[k])
  {
    hide CardOf, Decrypt;
  }

  lemma AnswersMatch(p: Tokens, u: Tokens, k: nat, r: Tokens, q: Tokens)
    requires TokensMatch(p, u) && k in p.consumers && OnlyAnswers(p, r, k) && OnlyAnswers(u, q, k)
    requires SameAnswer(r.consumers[k], q.consumers[k])
    ensures TokensMatch(r, q)
  {
    hide SameAnswer;
  }

  lemma StepMatches(c: Config, s: Store, p: Tokens, u: Tokens, clock: int, k: nat)
    requires TokensMatch(p, u) && k in p.consumers && ClaimsAgree(c, p, u, clock, k)
    ensures TokensMatch(AdvanceConsume(c, s, p, clock, k), AdvanceConsume(c, s, u, clock, k))
  {
    hide ClaimToken, ReadAndDecrypt;
    assert SameAnswer(p.consumers[k], u.consumers[k]);
    var o := u.consumers[k];
    if o == p.consumers[k] {
      match o.at
      case AtClaim => ClaimMatches(c, p, u, clock, k, o);
      case AtMiss =>
      case AtRead => ReadMatches(c, s, p, u, k, o);
      case _ =>
    }
  }

  lemma LossMatches(c: Config, p: Tokens, u: Tokens, clock: int, k: nat)
    requires TokensMatch(p, u) && k in p.consumers && ClaimsAgree(c, p, u, clock, k)
    ensures p.consumers[k].at == AtClaim <==> u.consumers[k].at == AtClaim
    ensures p.consumers[k].at == AtClaim ==> TokensMatch(LoseClaim(c, p, clock, k), LoseClaim(c, u, clock, k))
  {
    hide ClaimToken;
    var o := p.consumers[k];
    if o.at == AtClaim {
      ClaimMatches(c, p, u, clock, k, o);
    }
  }

  lemma ApplyMatches(c: Config, p: State, u: State, e: Event)
    requires p.store == u.store && p.clock == u.clock && !e.PurgeTokens?
    requires TokensMatch(p.tokens, u.tokens) && EventAgrees(c, p, u, e)
    ensures Apply(c, p, e).store == Apply(c, u, e).store && Apply(c, p, e).clock == Apply(c, u, e).clock >= p.clock
    ensures TokensMatch(Apply(c, p, e).tokens, Apply(c, u, e).tokens)
  {
    hide AdvanceConsume, ApplyStore, LoseClaim, ClaimsAgree;
    if e.ConsumeStep? && e.k in p.tokens.consumers {
      StepMatches(c, p.store, p.tokens, u.tokens, p.clock, e.k);
    }
    if e.ConsumeLost? && e.k in p.tokens.consumers {
      LossMatches(c, p.tokens, u.tokens, p.clock, e.k);
    }
  }

  lemma PurgeMatches(p: Tokens, u: Tokens, clock: int, now: int)
    requires TokensMatch(p, u)
    ensures TokensMatch(Purged(p, now), u)
    ensures GoneIsPast(p.rows, u.rows, clock) && now <= clock ==> GoneIsPast(Purged(p, now).rows, u.rows, clock)
  {
  }

  lemma PurgeApplies(c: Config, s: State, now: int)
    ensures Apply(c, s, PurgeTokens(now)) == s.(tokens := if now <= s.clock then Purged(s.tokens, now) else s.tokens)
  {
  }

  // --- the clock read with the claim -----------------------------------------------------------

  lemma PastIsNotClaimable(c: Config, p: State, u: State, e: Event)
    requires c.clockWithClaim && p.clock == u.clock && TokensMatch(p.tokens, u.tokens)
    requires GoneIsPast(p.tokens.rows, u.tokens.rows, p.clock)
    ensures EventAgrees(c, p, u, e)
  {
  }

  /** Only the sweeper takes rows away, and what it takes is past. */
  lemma GoneStaysPast(c: Config, p: State, u: State, e: Event)
    requires TokensMatch(p.tokens, u.tokens) && p.clock == u.clock && p.store == u.store && EventAgrees(c, p, u, e)
    requires GoneIsPast(p.tokens.rows, u.tokens.rows, p.clock) && !e.PurgeTokens?
    ensures GoneIsPast(Apply(c, p, e).tokens.rows, Apply(c, u, e).tokens.rows, Apply(c, p, e).clock)
  {
    hide ReadAndDecrypt, ApplyStore, AdvanceConsume, LoseClaim;
    if !e.MintToken? {
      RowsOfStep(c, p, e);
      RowsOfStep(c, u, e);
    }
  }

  /** No other step adds a row or takes one away; a claim marks one, whose expiry stays. */
  lemma RowsOfStep(c: Config, s: State, e: Event)
    requires !e.PurgeTokens? && !e.MintToken?
    ensures var rows := Apply(c, s, e).tokens.rows;
            && rows.Keys == s.tokens.rows.Keys
            && forall token | token in rows :: rows[token].expiresAt == s.tokens.rows[token].expiresAt
  {
    hide CardOf, Decrypt, ApplyStore;
  }

  /** Forward simulation. */
  lemma {:induction false} RunMatches(c: Config, p: State, u: State, events: seq<Event>)
    requires c.clockWithClaim && p.store == u.store && p.clock == u.clock
    requires TokensMatch(p.tokens, u.tokens) && GoneIsPast(p.tokens.rows, u.tokens.rows, p.clock)
    ensures var p', u' := Run(c, p, events), Run(c, u, WithoutPurges(events));
            && p'.store == u'.store && p'.clock == u'.clock
            && TokensMatch(p'.tokens, u'.tokens) && GoneIsPast(p'.tokens.rows, u'.tokens.rows, p'.clock)
    decreases |events|
  {
    hide Apply, TokensMatch, EventAgrees;
    if events != [] {
      var e := events[0];
      if e.PurgeTokens? {
        PurgeApplies(c, p, e.now);
        PurgeMatches(p.tokens, u.tokens, p.clock, e.now);
        RunMatches(c, Apply(c, p, e), u, events[1..]);
      } else {
        PastIsNotClaimable(c, p, u, e);
        ApplyMatches(c, p, u, e);
        GoneStaysPast(c, p, u, e);
        assert WithoutPurges(events)[1..] == WithoutPurges(events[1..]);
        RunMatches(c, Apply(c, p, e), Apply(c, u, e), events[1..]);
      }
    }
  }

  /**
   With the clock read in the same step as the claim, the vault with the sweeper and the vault
   without it grant the same claims to the same calls, in the same order, on every run; and no
   call is told anything else, except that a row it had claimed is gone, or that a token it
   missed is not found.
   */
  lemma PurgeIsInvisible(c: Config, s: State, events: seq<Event>)
    requires c.clockWithClaim
    ensures var p, u := Run(c, s, events).tokens, Run(c, s, WithoutPurges(events)).tokens;
            && p.claims == u.claims && p.minted == u.minted && p.consumers.Keys == u.consumers.Keys
            && forall k | k in p.consumers :: SameAnswer(p.consumers[k], u.consumers[k])
  {
    RunMatches(c, s, s, events);
  }

  // --- when the clock is read before the claim ---------------------------------------

  /** The sweeper runs between a call's clock read and its claim, after the token expired. */
  function StaleClaim(entryId: string, token: string, k: nat, ttl: nat, now: int): seq<Event> {
    [MintToken(entryId, 1, "", token), ConsumeCall(k, token, 1, ""), Tick(ttl + 1),
     PurgeTokens(now + ttl + 1), ConsumeStep(k)]
  }

  lemma RunTwo(c: Config, s: State, a: Event, b: Event)
    ensures Run(c, s, [a, b]) == Apply(c, Apply(c, s, a), b)
  {
    assert [a, b][1..] == [b];
    RunOne(c, Apply(c, s, a), b);
  }

  /** Up to the tick: a token minted, a call that has read the clock, and the token expired. */
  lemma Waiting(c: Config, s: State, entryId: string, token: string, k: nat)
    requires entryId in s.store.entries && token !in s.tokens.minted && k !in s.tokens.consumers
    ensures var e := StaleClaim(entryId, token, k, c.ttl, s.clock);
            Run(c, s, e[..3]) ==
              State(s.store,
                    s.tokens.(rows := s.tokens.rows[token := Token(1, "", entryId, s.clock + c.ttl, None)],
                              minted := s.tokens.minted[token := Token(1, "", entryId, s.clock + c.ttl, None)],
                              consumers := s.tokens.consumers[k := Consumer(token, 1, "", s.clock, AtClaim)]),
                    s.clock + c.ttl + 1)
  {
    var e := StaleClaim(entryId, token, k, c.ttl, s.clock);
    RunTwo(c, s, e[0], e[1]);
    assert e[..3] == [e[0], e[1]] + [e[2]];
    RunAppend(c, s, [e[0], e[1]], [e[2]]);
    RunOne(c, Run(c, s, [e[0], e[1]]), e[2]);
    Minted(c, s, entryId, token);
    var s1 := Apply(c, s, e[0]);
    Called(c, s1, token, k);
    hide Apply;
    assert Apply(c, Run(c, s, [e[0], e[1]]), e[2]) == Run(c, s, e[..3]);
    Ticked(c, Apply(c, s1, e[1]), c.ttl + 1);
  }

  lemma Minted(c: Config, s: State, entryId: string, token: string)
    requires entryId in s.store.entries && token !in s.tokens.minted
    ensures var row := Token(1, "", entryId, s.clock + c.ttl, None);
            Apply(c, s, MintToken(entryId, 1, "", token))
            == s.(tokens := s.tokens.(rows := s.tokens.rows[token := row], minted := s.tokens.minted[token := row]))
  {
  }

  lemma Called(c: Config, s: State, token: string, k: nat)
    requires k !in s.tokens.consumers
    ensures Apply(c, s, ConsumeCall(k, token, 1, ""))
            == s.(tokens := s.tokens.(consumers := s.tokens.consumers[k := Consumer(token, 1, "", s.clock, AtClaim)]))
  {
  }

  lemma Ticked(c: Config, s: State, d: nat)
    ensures Apply(c, s, Tick(d)) == s.(clock := s.clock + d)
  {
  }

  lemma SweptStaleClaimMisses(c: Config, s: State, entryId: string, token: string, k: nat)
    requires !c.clockWithClaim && entryId in s.store.entries && token !in s.tokens.minted && k !in s.tokens.consumers
    ensures Run(c, s, StaleClaim(entryId, token, k, c.ttl, s.clock)).tokens.claims == s.tokens.claims
  {
    var e := StaleClaim(entryId, token, k, c.ttl, s.clock);
    Waiting(c, s, entryId, token, k);
    var w := Run(c, s, e[..3]);
    assert e == e[..3] + [e[3], e[4]];
    RunAppend(c, s, e[..3], [e[3], e[4]]);
    RunTwo(c, w, e[3], e[4]);
    PurgeApplies(c, w, e[3].now);
    hide Apply;
    MissWithoutRow(c, Apply(c, w, e[3]), k);
  }

  lemma MissWithoutRow(c: Config, s: State, k: nat)
    requires k in s.tokens.consumers && s.tokens.consumers[k].at == AtClaim
    requires s.tokens.consumers[k].token !in s.tokens.rows
    ensures Apply(c, s, ConsumeStep(k)).tokens.claims == s.tokens.claims
  {
  }

  lemma StaleClaimUnswept(e: seq<Event>)
    requires |e| == 5 && forall i | 0 <= i < 5 :: e[i].PurgeTokens? <==> i == 3
    ensures WithoutPurges(e) == e[..3] + [e[4]]
  {
    assert e[1..][1..] == e[2..] && e[2..][1..] == e[3..] && e[3..][1..] == e[4..] && e[4..][1..] == [];
    assert WithoutPurges(e[4..]) == [e[4]];
    assert WithoutPurges(e[3..]) == [e[4]];
    assert WithoutPurges(e[2..]) == [e[2], e[4]];
  }

  lemma UnsweptStaleClaimSucceeds(c: Config, s: State, entryId: string, token: string, k: nat)
    requires !c.clockWithClaim && 0 < c.ttl
    requires entryId in s.store.entries && token !in s.tokens.minted && k !in s.tokens.consumers
    ensures Run(c, s, WithoutPurges(StaleClaim(entryId, token, k, c.ttl, s.clock))).tokens.claims
            == s.tokens.claims + [Claim(k, token, s.clock)]
  {
    var e := StaleClaim(entryId, token, k, c.ttl, s.clock);
    Waiting(c, s, entryId, token, k);
    var w := Run(c, s, e[..3]);
    StaleClaimUnswept(e);
    RunAppend(c, s, e[..3], [e[4]]);
    RunOne(c, w, e[4]);
  }

  /**
   Exactly then: in a vault that holds a card, sweeping is invisible to claiming on every run
   if and only if claims read the clock in their own step.  (consumeRetrievalToken reads it one
   statement earlier, so the window is the time between the two.)
   */
  lemma PurgeIsInvisibleIffClockIsFresh(c: Config, s: State, entryId: string, token: string, k: nat)
    requires 0 < c.ttl
    requires entryId in s.store.entries && token !in s.tokens.minted && k !in s.tokens.consumers
    ensures c.clockWithClaim <==>
            forall events :: Run(c, s, events).tokens.claims == Run(c, s, WithoutPurges(events)).tokens.claims
  {
    if c.clockWithClaim {
      forall events: seq<Event>
        ensures Run(c, s, events).tokens.claims == Run(c, s, WithoutPurges(events)).tokens.claims
      {
        PurgeIsInvisible(c, s, events);
      }
    } else {
      var e := StaleClaim(entryId, token, k, c.ttl, s.clock);
      SweptStaleClaimMisses(c, s, entryId, token, k);
      UnsweptStaleClaimSucceeds(c, s, entryId, token, k);
      assert Run(c, s, e).tokens.claims != Run(c, s, WithoutPurges(e)).tokens.claims;
    }
  }
}
