/**
 What the vault tells its callers and its audit log (services/vault/src/vault/store.service.ts:58-102,
 services/vault/src/vault/retrieval.service.ts:72-169), against what has happened to the tables.
 */
module VaultEvents {
  import opened Prelude
  import opened Bytes
  import opened Envelope
  import opened VaultProtocol
  import VaultStore
  import VaultTokens
  import VaultCalls

  // --- the events of consume calls -------------------------------------------------------------

  /** The events one call has emitted, in order. */
  function EventsOf(log: seq<Consumed>, k: nat): seq<Consumed> {
    if log == [] then []
    else
      var n := |log| - 1;
      EventsOf(log[..n], k) + if log[n].k == k then [log[n]] else []
  }

  /** Failures that are logged; the others are not. */
  predicate Logged(why: ConsumeError) { why in {NotFound, AlreadyUsed, TokenExpired, Mismatch} }

  /** The events a call should have emitted by where it is. */
  function Due(k: nat, o: Consumer): seq<Consumed> {
    if o.at.Got? then [Consumed(k, o.token, true)]
    else if o.at.Failed? && Logged(o.at.error) then [Consumed(k, o.token, false)]
    else []
  }

  ghost predicate LogTells(t: Tokens) {
    forall k: nat :: EventsOf(t.log, k) == if k in t.consumers then Due(k, t.consumers[k]) else []
  }

  lemma OneMore(log: seq<Consumed>, x: Consumed, k: nat)
    ensures EventsOf(log + [x], k) == EventsOf(log, k) + if x.k == k then [x] else []
  {
    assert (log + [x])[..|log|] == log;
  }

  /** A step of one unfinished call, with the event it is then due, if any. */
  ghost predicate Tells(t: Tokens, u: Tokens, k: nat) {
    && k in t.consumers && k in u.consumers && u.consumers == t.consumers[k := u.consumers[k]]
    && ((u.log == t.log && Due(k, u.consumers[k]) == Due(k, t.consumers[k]))
        || (Due(k, t.consumers[k]) == [] && exists x: Consumed ::
              x.k == k && u.log == t.log + [x] && Due(k, u.consumers[k]) == [x]))
  }

  lemma TellsKeeps(t: Tokens, u: Tokens, k: nat)
    requires LogTells(t) && Tells(t, u, k)
    ensures LogTells(u)
  {
    hide Due;
    forall l: nat
      ensures EventsOf(u.log, l) == if l in u.consumers then Due(l, u.consumers[l]) else []
    {
      if u.log != t.log {
        var x: Consumed :| x.k == k && u.log == t.log + [x] && Due(k, u.consumers[k]) == [x];
        OneMore(t.log, x, l);
      }
      assert EventsOf(t.log, l) == if l in t.consumers then Due(l, t.consumers[l]) else [];
    }
  }

  lemma MissTells(t: Tokens, k: nat)
    requires k in t.consumers && t.consumers[k].at == AtMiss
    ensures Tells(t, ExplainMiss(t, k, t.consumers[k]), k)
  {
    var o, u := t.consumers[k], ExplainMiss(t, k, t.consumers[k]);
    assert u.log == t.log + [Consumed(k, o.token, false)];
  }

  lemma ClaimTells(c: Config, t: Tokens, clock: int, k: nat)
    requires k in t.consumers && t.consumers[k].at == AtClaim
    ensures Tells(t, ClaimToken(c, t, clock, k, t.consumers[k]), k)
    ensures Tells(t, LoseClaim(c, t, clock, k), k)
  {
    var u := LoseClaim(c, t, clock, k);
    assert u.consumers == t.consumers[k := u.consumers[k]];
  }

  lemma ReadTells(c: Config, s: Store, t: Tokens, k: nat)
    requires k in t.consumers && t.consumers[k].at == AtRead
    ensures Tells(t, ReadAndDecrypt(c, s, t, k, t.consumers[k]), k)
  {
    hide CardOf, Decrypt;
    var o, u := t.consumers[k], ReadAndDecrypt(c, s, t, k, t.consumers[k]);
    assert u.log in {t.log, t.log + [Consumed(k, o.token, true)], t.log + [Consumed(k, o.token, false)]};
  }

  lemma StepTells(c: Config, s: State, e: Event)
    requires LogTells(s.tokens)
    ensures LogTells(ApplyTokens(c, s, e))
  {
    hide ExplainMiss, ClaimToken, ReadAndDecrypt, LoseClaim;
    if (e.ConsumeStep? || e.ConsumeLost?) && e.k in s.tokens.consumers {
      var u := ApplyTokens(c, s, e);
      if s.tokens.consumers[e.k].at == AtClaim {
        ClaimTells(c, s.tokens, s.clock, e.k);
        TellsKeeps(s.tokens, u, e.k);
      } else if e.ConsumeStep? && s.tokens.consumers[e.k].at == AtMiss {
        MissTells(s.tokens, e.k);
        TellsKeeps(s.tokens, u, e.k);
      } else if e.ConsumeStep? && s.tokens.consumers[e.k].at == AtRead {
        ReadTells(c, s.store, s.tokens, e.k);
        TellsKeeps(s.tokens, u, e.k);
      }
    } else {
      QuietStep(c, s, e);
    }
  }

  lemma QuietStep(c: Config, s: State, e: Event)
    requires LogTells(s.tokens) && !((e.ConsumeStep? || e.ConsumeLost?) && e.k in s.tokens.consumers)
    ensures LogTells(ApplyTokens(c, s, e))
  {
    var u := ApplyTokens(c, s, e);
    assert u.log == s.tokens.log;
    forall l: nat
      ensures EventsOf(u.log, l) == if l in u.consumers then Due(l, u.consumers[l]) else []
    {
      assert EventsOf(s.tokens.log, l) == if l in s.tokens.consumers then Due(l, s.tokens.consumers[l]) else [];
    }
  }

  lemma {:induction false} RunTells(c: Config, s: State, events: seq<Event>)
    requires LogTells(s.tokens)
    ensures LogTells(Run(c, s, events).tokens)
    decreases |events|
  {
    if events != [] {
      StepTells(c, s, events[0]);
      hide ApplyTokens, ApplyStore, LogTells;
      RunTells(c, Apply(c, s, events[0]), events[1..]);
    }
  }

  /**
   Over every run each consume call has emitted exactly this: nothing while it runs; then one
   success with its token if it got a card; one failure if it was told that the token is not
   found, used, expired, or minted on other terms; and nothing if it failed otherwise.
   */
  lemma EachCallTellsOnce(c: Config, ring: KeyRing, clock: int, events: seq<Event>, k: nat)
    ensures var t := Run(c, Init(ring, clock), events).tokens;
            EventsOf(t.log, k) ==
              if k !in t.consumers then []
              else
                var o := t.consumers[k];
                if o.at.Got? then [Consumed(k, o.token, true)]
                else if o.at.Failed? && o.at.error in {NotFound, AlreadyUsed, TokenExpired, Mismatch}
                then [Consumed(k, o.token, false)]
                else []
  {
    RunTells(c, Init(ring, clock), events);
  }

  // --- what a miss is told ------------------------------------------------------------------------

  ghost predicate Claimed(claims: seq<Claim>, token: string) { exists x :: x in claims && x.token == token }

  ghost predicate ClaimedByOther(claims: seq<Claim>, token: string, k: nat) {
    exists x :: x in claims && x.token == token && x.k != k
  }

  ghost predicate ClaimedAt(claims: seq<Claim>, token: string, now: int) {
    exists x :: x in claims && x.token == token && x.now == now
  }

  /** A row is marked used only by a claim, with that claim's time; who is told so was not the one to claim it. */
  ghost predicate UsedIsClaimed(t: Tokens) {
    && (forall token | token in t.rows && t.rows[token].usedAt.Some? ::
          ClaimedAt(t.claims, token, t.rows[token].usedAt.value))
    && (forall x | x in t.claims :: x.k in t.consumers && !t.consumers[x.k].at.AtClaim? && !t.consumers[x.k].at.AtMiss?)
    && (forall k | k in t.consumers && t.consumers[k].at == Failed(AlreadyUsed) ::
          ClaimedByOther(t.claims, t.consumers[k].token, k))
  }

  lemma ClaimsOnlyGrow(t: Tokens, claims: seq<Claim>, more: seq<Claim>)
    requires claims <= more
    ensures forall token, now | ClaimedAt(claims, token, now) :: ClaimedAt(more, token, now)
    ensures forall token, k | ClaimedByOther(claims, token, k) :: ClaimedByOther(more, token, k)
  {
    assert forall x | x in claims :: x in more;
  }

  lemma ClaimIsClaimed(c: Config, t: Tokens, clock: int, k: nat)
    requires UsedIsClaimed(t) && k in t.consumers && t.consumers[k].at == AtClaim
    ensures UsedIsClaimed(ClaimToken(c, t, clock, k, t.consumers[k]))
  {
    var o, u := t.consumers[k], ClaimToken(c, t, clock, k, t.consumers[k]);
    ClaimsOnlyGrow(t, t.claims, u.claims);
    assert u.claims != t.claims ==>
             var x := u.claims[|t.claims|]; x.token == o.token && u.rows[o.token].usedAt == Some(x.now);
    assert forall x | x in u.claims :: x in t.claims || x.k == k;
  }

  lemma LostIsClaimed(c: Config, t: Tokens, clock: int, k: nat)
    requires UsedIsClaimed(t) && k in t.consumers && t.consumers[k].at == AtClaim
    ensures UsedIsClaimed(LoseClaim(c, t, clock, k))
  {
    ClaimIsClaimed(c, t, clock, k);
    hide ClaimToken, ClaimedAt, ClaimedByOther;
  }

  lemma MissIsClaimed(t: Tokens, k: nat)
    requires UsedIsClaimed(t) && k in t.consumers && t.consumers[k].at == AtMiss
    ensures UsedIsClaimed(ExplainMiss(t, k, t.consumers[k]))
  {
    var o := t.consumers[k];
    if o.token in t.rows && t.rows[o.token].usedAt.Some? {
      var x :| x in t.claims && x.token == o.token;
      assert ClaimedByOther(t.claims, o.token, k);
    }
  }

  lemma ReadIsClaimed(c: Config, s: Store, t: Tokens, k: nat)
    requires UsedIsClaimed(t) && k in t.consumers && t.consumers[k].at == AtRead
    ensures UsedIsClaimed(ReadAndDecrypt(c, s, t, k, t.consumers[k]))
  {
    hide CardOf, Decrypt;
  }

  lemma StepIsClaimed(c: Config, s: State, e: Event)
    requires UsedIsClaimed(s.tokens)
    ensures UsedIsClaimed(ApplyTokens(c, s, e))
  {
    hide ExplainMiss, ClaimToken, ReadAndDecrypt, LoseClaim, ClaimedAt, ClaimedByOther;
    if (e.ConsumeStep? || e.ConsumeLost?) && e.k in s.tokens.consumers {
      hide UsedIsClaimed;
      if s.tokens.consumers[e.k].at == AtClaim {
        ClaimIsClaimed(c, s.tokens, s.clock, e.k);
        LostIsClaimed(c, s.tokens, s.clock, e.k);
      } else if s.tokens.consumers[e.k].at == AtMiss {
        MissIsClaimed(s.tokens, e.k);
      } else if s.tokens.consumers[e.k].at == AtRead {
        ReadIsClaimed(c, s.store, s.tokens, e.k);
      }
    }
  }

  lemma {:induction false} RunIsClaimed(c: Config, s: State, events: seq<Event>)
    requires UsedIsClaimed(s.tokens)
    ensures UsedIsClaimed(Run(c, s, events).tokens)
    decreases |events|
  {
    if events != [] {
      StepIsClaimed(c, s, events[0]);
      hide ApplyTokens, ApplyStore, UsedIsClaimed;
      RunIsClaimed(c, Apply(c, s, events[0]), events[1..]);
    }
  }

  /**
   Over every run, whoever is told that a token is used was beaten to it by another call; and a row
   that is marked used was claimed, at the time it is marked with.
   */
  lemma UsedMeansBeaten(c: Config, ring: KeyRing, clock: int, events: seq<Event>, k: nat)
    ensures var t := Run(c, Init(ring, clock), events).tokens;
            k in t.consumers && t.consumers[k].at == Failed(AlreadyUsed) ==>
              exists x :: x in t.claims && x.token == t.consumers[k].token && x.k != k
    ensures var t := Run(c, Init(ring, clock), events).tokens;
            forall token | token in t.rows && t.rows[token].usedAt.Some? ::
              exists x :: x in t.claims && x.token == token && x.now == t.rows[token].usedAt.value
  {
    RunIsClaimed(c, Init(ring, clock), events);
  }

  /**
   What a lone call is told, by what has happened to its token before: in every reachable vault,
   and with nothing said of how a row records it.
   */
  lemma LoneConsumeIsToldWhy(c: Config, ring: KeyRing, clock: int, events: seq<Event>,
                             k: nat, token: string, amount: int, currency: string)
    requires Assumed(c) && ring.activeVersion in ring.keys
    ensures var s := Run(c, Init(ring, clock), events);
            var t := s.tokens;
            var u := VaultCalls.ConsumeAlone(c, s.store, t, s.clock, k, token, amount, currency);
            var at := u.consumers[k].at;
            && (token !in t.minted ==> at == Failed(NotFound))
            && (token !in t.rows ==> at == Failed(NotFound))
            && (token in t.rows ==>
                  && token in t.minted
                  && (Claimed(t.claims, token) ==> at == Failed(AlreadyUsed) && u.claims == t.claims)
                  && (!Claimed(t.claims, token) && t.minted[token].expiresAt <= s.clock ==>
                        at == Failed(TokenExpired) && u.claims == t.claims)
                  && (!Claimed(t.claims, token) && s.clock < t.minted[token].expiresAt ==>
                        && u.claims == t.claims + [Claim(k, token, s.clock)]
                        && (t.minted[token].amount != amount || t.minted[token].currency != currency ==>
                              at == Failed(Mismatch))
                        && (t.minted[token].amount == amount && t.minted[token].currency == currency ==>
                              at.Got? && at.entryId == t.minted[token].entryId)))
  {
    var s := Run(c, Init(ring, clock), events);
    VaultTokens.RunInv(c, ring, clock, events);
    RunIsClaimed(c, Init(ring, clock), events);
    hide Run;
    VaultCalls.ConsumeAloneAnswers(c, s.store, s.tokens, s.clock, k, token, amount, currency);
    if token in s.tokens.rows {
      ClaimedIffUsed(s.tokens, s.store.origin, token);
      RowIsAsMinted(s.tokens, s.store.origin, token);
      EntryOpens(c, s.store, s.tokens.rows[token].entryId);
    }
    AnswerSaysWhy(c, s.store, s.tokens, s.clock, token, amount, currency);
    hide VaultCalls.ConsumeAlone, VaultCalls.Answer, VaultStore.Inv, VaultTokens.Inv, UsedIsClaimed, Claimed;
  }

  lemma ClaimedIffUsed(t: Tokens, origin: map<string, Origin>, token: string)
    requires VaultTokens.Inv(t, origin) && UsedIsClaimed(t) && token in t.rows
    ensures Claimed(t.claims, token) <==> t.rows[token].usedAt.Some?
  {
    hide VaultTokens.ConsumersOk, VaultTokens.LogOk;
  }

  lemma AnswerSaysWhy(c: Config, s: Store, t: Tokens, now: int, token: string, amount: int, currency: string)
    requires token in t.rows ==>
               && t.rows[token].entryId in s.entries
               && var e := s.entries[t.rows[token].entryId];
                  Decrypt(c.primitives, Payload(e.encryptedPan, e.keyVersion), s.ring).Ok?
    ensures var at := VaultCalls.Answer(c, s, t.rows, now, token, amount, currency);
            && (token !in t.rows ==> at == Failed(NotFound))
            && (token in t.rows ==>
                  var row := t.rows[token];
                  && (row.usedAt.Some? ==> at == Failed(AlreadyUsed))
                  && (row.usedAt.None? && row.expiresAt <= now ==> at == Failed(TokenExpired))
                  && (Claimable(t, token, now) <==> row.usedAt.None? && now < row.expiresAt)
                  && (row.usedAt.None? && now < row.expiresAt ==>
                        && (row.amount != amount || row.currency != currency ==> at == Failed(Mismatch))
                        && (row.amount == amount && row.currency == currency ==> at.Got? && at.entryId == row.entryId)))
  {
    hide Decrypt, CardOf;
  }

  lemma RowIsAsMinted(t: Tokens, origin: map<string, Origin>, token: string)
    requires VaultTokens.Inv(t, origin) && token in t.rows
    ensures token in t.minted && t.rows[token].(usedAt := None) == t.minted[token] && t.rows[token].entryId in origin
  {
    hide VaultTokens.ConsumersOk, VaultTokens.LogOk, VaultTokens.ClaimsOk;
    assert t.minted[token].entryId in origin;
  }

  lemma EntryOpens(c: Config, s: Store, id: string)
    requires Assumed(c) && VaultStore.Inv(c, s) && id in s.origin
    ensures id in s.entries
    ensures var e := s.entries[id]; Decrypt(c.primitives, Payload(e.encryptedPan, e.keyVersion), s.ring).Ok?
  {
    hide Decrypt;
    assert VaultStore.EntryOk(c, s.ring, s.entries[id], s.origin[id].input);
  }

  // --- the events of store calls -------------------------------------------------------------------

  function Count(log: seq<StoreEvent>, x: StoreEvent): nat { multiset(log)[x] }

  lemma CountOneMore(log: seq<StoreEvent>, x: StoreEvent, y: StoreEvent)
    ensures Count(log + [x], y) == Count(log, y) + if x == y then 1 else 0
  {
  }

  /** Some call has heard that it created this entry. */
  ghost predicate Reported(storers: map<nat, Storer>, id: string) {
    exists k :: k in storers && Created(storers[k], id)
  }

  predicate Created(o: Storer, id: string) { o.at.Stored? && o.at.id == id && !o.at.deduped }

  function Rejected(storers: map<nat, Storer>, id: string): set<nat> {
    set k | k in storers && storers[k].at == Duplicate(id)
  }

  ghost predicate StoreLogTells(log: seq<StoreEvent>, storers: map<nat, Storer>) {
    forall id :: Count(log, Create(id)) == (if Reported(storers, id) then 1 else 0)
                 && Count(log, DuplicateRejected(id)) == |Rejected(storers, id)|
  }

  predicate Unfinished(storers: map<nat, Storer>, k: nat) {
    k in storers ==> storers[k].at in {AtKey, AtFp, AtCreate}
  }

  /** A call that creates nothing and is rejected by nothing leaves no trace. */
  lemma QuietStoreTells(log: seq<StoreEvent>, storers: map<nat, Storer>, k: nat, o: Storer)
    requires StoreLogTells(log, storers) && Unfinished(storers, k)
    requires !o.at.Duplicate? && (o.at.Stored? ==> o.at.deduped)
    ensures StoreLogTells(log, storers[k := o])
  {
    var t := storers[k := o];
    forall id
      ensures Reported(t, id) <==> Reported(storers, id)
      ensures Rejected(t, id) == Rejected(storers, id)
    {
      if l :| l in storers && Created(storers[l], id) {
        assert l in t && Created(t[l], id);
      }
    }
  }

  lemma CreateTells(log: seq<StoreEvent>, storers: map<nat, Storer>, k: nat, o: Storer, id: string)
    requires StoreLogTells(log, storers) && Unfinished(storers, k) && !Reported(storers, id) && Created(o, id)
    ensures StoreLogTells(log + [Create(id)], storers[k := o])
  {
    var t := storers[k := o];
    assert k in t && Created(t[k], id);
    hide Count;
    forall x
      ensures Reported(t, x) <==> Reported(storers, x) || x == id
      ensures Rejected(t, x) == Rejected(storers, x)
    {
      CountOneMore(log, Create(id), Create(x));
      CountOneMore(log, Create(id), DuplicateRejected(x));
      if l :| l in storers && Created(storers[l], x) {
        assert l in t && Created(t[l], x);
      }
    }
  }

  lemma RejectTells(log: seq<StoreEvent>, storers: map<nat, Storer>, k: nat, o: Storer, id: string)
    requires StoreLogTells(log, storers) && Unfinished(storers, k) && o.at == Duplicate(id)
    ensures StoreLogTells(log + [DuplicateRejected(id)], storers[k := o])
  {
    var t, more := storers[k := o], log + [DuplicateRejected(id)];
    hide Count, Reported, Rejected;
    forall x
      ensures Count(more, Create(x)) == (if Reported(t, x) then 1 else 0)
      ensures Count(more, DuplicateRejected(x)) == |Rejected(t, x)|
    {
      CountOneMore(log, DuplicateRejected(id), Create(x));
      CountOneMore(log, DuplicateRejected(id), DuplicateRejected(x));
      OneMoreRejected(storers, k, o, id, x);
    }
  }

  lemma OneMoreRejected(storers: map<nat, Storer>, k: nat, o: Storer, id: string, x: string)
    requires Unfinished(storers, k) && o.at == Duplicate(id)
    ensures Reported(storers[k := o], x) <==> Reported(storers, x)
    ensures |Rejected(storers[k := o], x)| == |Rejected(storers, x)| + if x == id then 1 else 0
  {
    var t := storers[k := o];
    if x == id {
      assert Rejected(t, x) == Rejected(storers, x) + {k};
    } else {
      assert Rejected(t, x) == Rejected(storers, x);
    }
    hide Rejected;
    if l :| l in storers && Created(storers[l], x) {
      assert l in t && Created(t[l], x);
    }
  }

  lemma NotYetReported(c: Config, s: Store, id: string)
    requires VaultStore.Inv(c, s) && id !in s.entries
    ensures !Reported(s.storers, id)
  {
    hide VaultStore.RowsOk, VaultStore.FpIndexOk, VaultStore.KeyIndexOk, VaultStore.CreatorsOk;
    forall k | k in s.storers
      ensures !Created(s.storers[k], id)
    {
      assert VaultStore.StorerOk(c, s.entries, s.storers[k]);
    }
  }

  lemma CreateStepTells(c: Config, s: Store, k: nat, iv: bytes, id: string)
    requires VaultStore.Inv(c, s) && StoreLogTells(s.log, s.storers) && k in s.storers && s.storers[k].at == AtCreate
    ensures var t := CreateEntry(c, s, k, s.storers[k].input, iv, id); StoreLogTells(t.log, t.storers)
  {
    hide VaultStore.Inv, StoreLogTells, NewEntry, Violates;
    var i := s.storers[k].input;
    QuietStoreTells(s.log, s.storers, k, Storer(i, Refused));
    match NewEntry(c, s.ring, i, iv)
    case Err(_) =>
    case Ok(e) =>
      if !Violates(s, i, id, e) {
        assert id !in s.entries by { IdIsFree(s, i, id, e); }
        NotYetReported(c, s, id);
        CreateTells(s.log, s.storers, k, Storer(i, Stored(id, e.panLast4, false)), id);
      }
  }

  lemma IdIsFree(s: Store, i: StoreInput, id: string, e: Entry)
    requires !Violates(s, i, id, e)
    ensures id !in s.entries
  {
  }

  lemma LookupTells(c: Config, s: Store, k: nat, iv: bytes, id: string)
    requires StoreLogTells(s.log, s.storers) && k in s.storers && (s.storers[k].at == AtKey || s.storers[k].at == AtFp)
    ensures var t := AdvanceStore(c, s, k, iv, id); StoreLogTells(t.log, t.storers)
  {
    var t := AdvanceStore(c, s, k, iv, id);
    VaultStore.LookupOnlyMoves(c, s, k, iv, id);
    LookupLogs(c, s, k, iv, id);
    hide AdvanceStore;
    if t.storers[k].at.Duplicate? {
      RejectTells(s.log, s.storers, k, t.storers[k], t.storers[k].at.existing);
    } else {
      QuietStoreTells(s.log, s.storers, k, t.storers[k]);
    }
  }

  lemma LookupLogs(c: Config, s: Store, k: nat, iv: bytes, id: string)
    requires k in s.storers && (s.storers[k].at == AtKey || s.storers[k].at == AtFp)
    ensures var t := AdvanceStore(c, s, k, iv, id);
            var at := t.storers[k].at;
            && (at.Stored? ==> at.deduped)
            && t.log == s.log + (if at.Duplicate? then [DuplicateRejected(at.existing)] else [])
  {
    hide CreateEntry, FingerprintPan;
    if s.storers[k].at == AtKey {
      KeyLookupLogs(c, s, k, iv, id);
    } else {
      CardLookupLogs(c, s, k, iv, id);
    }
    hide AdvanceStore;
  }

  lemma KeyLookupLogs(c: Config, s: Store, k: nat, iv: bytes, id: string)
    requires k in s.storers && s.storers[k].at == AtKey
    ensures var t := AdvanceStore(c, s, k, iv, id);
            var at := t.storers[k].at;
            !at.Duplicate? && (at.Stored? ==> at.deduped) && t.log == s.log
  {
    hide CreateEntry;
  }

  lemma CardLookupLogs(c: Config, s: Store, k: nat, iv: bytes, id: string)
    requires k in s.storers && s.storers[k].at == AtFp
    ensures var t := AdvanceStore(c, s, k, iv, id);
            var at := t.storers[k].at;
            && (at.Stored? ==> at.deduped)
            && t.log == s.log + (if at.Duplicate? then [DuplicateRejected(at.existing)] else [])
  {
    hide CreateEntry, FingerprintPan;
  }

  lemma StoreStepTells(c: Config, s: Store, e: Event)
    requires Assumed(c) && VaultStore.Inv(c, s) && StoreLogTells(s.log, s.storers)
    ensures var t := ApplyStore(c, s, e); StoreLogTells(t.log, t.storers)
  {
    hide VaultStore.Inv, StoreLogTells, CreateEntry, FingerprintPan;
    match e
    case StoreCall(k, i) =>
      if k !in s.storers {
        QuietStoreTells(s.log, s.storers, k, BeginStore(i));
      }
    case StoreStep(k, iv, id) =>
      if k in s.storers {
        if s.storers[k].at == AtCreate && |iv| == IV_LEN {
          CreateStepTells(c, s, k, iv, id);
        } else if s.storers[k].at == AtKey || s.storers[k].at == AtFp {
          LookupTells(c, s, k, iv, id);
        }
      }
    case StoreLost(k, iv, id) =>
      if k in s.storers && s.storers[k].at == AtCreate {
        LostMovesOne(c, s, k, iv, id);
        QuietStoreTells(s.log, s.storers, k, Storer(s.storers[k].input, Refused));
      }
    case _ =>
  }

  lemma LostMovesOne(c: Config, s: Store, k: nat, iv: bytes, id: string)
    requires k in s.storers && s.storers[k].at == AtCreate
    ensures var t := LoseCreate(c, s, k, iv, id);
            t.log == s.log && t.storers == s.storers[k := Storer(s.storers[k].input, Refused)]
  {
    hide NewEntry;
  }

  lemma {:induction false} StoreRunTells(c: Config, s: State, events: seq<Event>)
    requires Assumed(c) && VaultStore.Inv(c, s.store) && StoreLogTells(s.store.log, s.store.storers)
    ensures var t := Run(c, s, events).store; StoreLogTells(t.log, t.storers)
    decreases |events|
  {
    if events != [] {
      StoreStepTells(c, s.store, events[0]);
      VaultStore.ApplyKeeps(c, s.store, events[0]);
      hide VaultStore.Inv, StoreLogTells, ApplyStore, ApplyTokens;
      StoreRunTells(c, Apply(c, s, events[0]), events[1..]);
    }
  }

  /**
   Over every run the store's log holds one CREATE for each entry whose creation was reported to
   its caller, none for any other, and one DUPLICATE_REJECTED for each call rejected with it.
   */
  lemma StoreEventsAreAnswers(c: Config, ring: KeyRing, clock: int, events: seq<Event>, id: string)
    requires Assumed(c) && ring.activeVersion in ring.keys
    ensures var s := Run(c, Init(ring, clock), events).store;
            && multiset(s.log)[Create(id)] == (if Reported(s.storers, id) then 1 else 0)
            && multiset(s.log)[DuplicateRejected(id)] == |Rejected(s.storers, id)|
  {
    var s0 := Init(ring, clock);
    assert StoreLogTells(s0.store.log, s0.store.storers) by {
      forall x
        ensures Rejected(s0.store.storers, x) == {}
      {
      }
    }
    StoreRunTells(c, s0, events);
    var s := Run(c, s0, events).store;
    hide Run;
    assert Count(s.log, Create(id)) == (if Reported(s.storers, id) then 1 else 0);
    assert Count(s.log, DuplicateRejected(id)) == |Rejected(s.storers, id)|;
  }
}
