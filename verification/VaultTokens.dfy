/**
 What consumeRetrievalToken keeps, over every interleaving of mints, split consumes, purges,
 stores and key rotations: a token is good for one card, the one it was minted for, in time
 and on the minted terms; and that card is the card as first stored.
 */
module VaultTokens {
  import opened Prelude
  import opened Bytes
  import Luhn
  import opened Envelope
  import opened VaultProtocol
  import VaultStore

  /** The card a consumer gets is what the call that created the entry stored. */
  predicate CardFor(i: StoreInput, card: Card) {
    var pan := Luhn.Strip(i.pan);
    && Accepts(i)
    && card == Card(pan, i.cvc, i.expiryMonth, ShortYear(i.expiryYear), i.cardholderName, pan[|pan| - 4..], pan[..6])
  }

  ghost predicate MintedOk(rows: map<string, Token>, minted: map<string, Token>, origin: map<string, Origin>) {
    && (forall token | token in minted :: minted[token].usedAt.None? && minted[token].entryId in origin)
    && (forall token | token in rows :: token in minted && rows[token].(usedAt := None) == minted[token])
  }

  ghost predicate ClaimsOk(rows: map<string, Token>, minted: map<string, Token>, claims: seq<Claim>) {
    && (forall x | x in claims :: x.token in minted && x.now < minted[x.token].expiresAt)
    && (forall x | x in claims :: x.token in rows ==> rows[x.token].usedAt.Some?)
    && (forall i, j | 0 <= i < j < |claims| :: claims[i].token != claims[j].token)
  }

  ghost predicate ConsumerOk(minted: map<string, Token>, claims: seq<Claim>, origin: map<string, Origin>,
                             k: nat, o: Consumer)
  {
    match o.at
    case AtRead => Claim(k, o.token, o.now) in claims && o.token in minted
    case Got(entryId, card) =>
      && Claim(k, o.token, o.now) in claims && o.token in minted
      && minted[o.token].amount == o.amount && minted[o.token].currency == o.currency
      && minted[o.token].entryId == entryId
      && entryId in origin && CardFor(origin[entryId].input, card)
    case Failed(why) => why != Undecryptable
    case _ => true
  }

  ghost predicate ConsumersOk(minted: map<string, Token>, claims: seq<Claim>, origin: map<string, Origin>,
                              consumers: map<nat, Consumer>)
  {
    && (forall k | k in consumers :: ConsumerOk(minted, claims, origin, k, consumers[k]))
    && (forall x | x in claims :: x.k in consumers && !consumers[x.k].at.AtClaim?)
  }

  /** How many success events call k has in the audit log. */
  function Successes(log: seq<Consumed>, k: nat): nat {
    if log == [] then 0
    else
      var n := |log| - 1;
      Successes(log[..n], k) + if log[n].k == k && log[n].success then 1 else 0
  }

  ghost predicate LogOk(log: seq<Consumed>, consumers: map<nat, Consumer>) {
    forall k: nat :: Successes(log, k) == if k in consumers && consumers[k].at.Got? then 1 else 0
  }

  ghost predicate Inv(t: Tokens, origin: map<string, Origin>) {
    && MintedOk(t.rows, t.minted, origin)
    && ClaimsOk(t.rows, t.minted, t.claims)
    && ConsumersOk(t.minted, t.claims, origin, t.consumers)
    && LogOk(t.log, t.consumers)
  }

  // --- preservation -----------------------------------------------------------------

  lemma Logged(log: seq<Consumed>, x: Consumed, k: nat)
    ensures Successes(log + [x], k) == Successes(log, k) + if x.k == k && x.success then 1 else 0
  {
    assert (log + [x])[..|log|] == log;
  }

  /** A step that moves one call without giving it a card, logging a failure or nothing. */
  lemma MoveKeepsLog(log: seq<Consumed>, consumers: map<nat, Consumer>, k: nat, o: Consumer, token: string)
    requires LogOk(log, consumers) && k in consumers && !consumers[k].at.Got? && !o.at.Got?
    ensures LogOk(log, consumers[k := o]) && LogOk(log + [Consumed(k, token, false)], consumers[k := o])
  {
    forall l: nat
      ensures Successes(log + [Consumed(k, token, false)], l) == Successes(log, l)
    {
      Logged(log, Consumed(k, token, false), l);
    }
  }

  lemma CardKeepsLog(log: seq<Consumed>, consumers: map<nat, Consumer>, k: nat, o: Consumer, token: string)
    requires LogOk(log, consumers) && k in consumers && !consumers[k].at.Got? && o.at.Got?
    ensures LogOk(log + [Consumed(k, token, true)], consumers[k := o])
  {
    forall l: nat
      ensures Successes(log + [Consumed(k, token, true)], l) == Successes(log, l) + if l == k then 1 else 0
    {
      Logged(log, Consumed(k, token, true), l);
    }
  }

  lemma MoveKeepsConsumers(minted: map<string, Token>, claims: seq<Claim>, origin: map<string, Origin>,
                           consumers: map<nat, Consumer>, k: nat, o: Consumer)
    requires ConsumersOk(minted, claims, origin, consumers) && ConsumerOk(minted, claims, origin, k, o)
    requires o.at.AtClaim? ==> k !in consumers
    ensures ConsumersOk(minted, claims, origin, consumers[k := o])
  {
  }

  lemma MoveKeeps(t: Tokens, origin: map<string, Origin>, k: nat, o: Consumer, token: string)
    requires Inv(t, origin) && k in t.consumers && !t.consumers[k].at.Got?
    requires !o.at.Got? && !o.at.AtClaim? && ConsumerOk(t.minted, t.claims, origin, k, o)
    ensures Inv(WithConsumer(t, k, o), origin)
    ensures Inv(WithConsumer(t.(log := t.log + [Consumed(k, token, false)]), k, o), origin)
  {
    MoveKeepsConsumers(t.minted, t.claims, origin, t.consumers, k, o);
    MoveKeepsLog(t.log, t.consumers, k, o, token);
  }

  lemma NewClaimOk(rows: map<string, Token>, minted: map<string, Token>, claims: seq<Claim>,
                   k: nat, token: string, now: int)
    requires ClaimsOk(rows, minted, claims) && token in rows && token in minted
    requires rows[token].usedAt.None? && now < minted[token].expiresAt
    ensures ClaimsOk(rows[token := rows[token].(usedAt := Some(now))], minted, claims + [Claim(k, token, now)])
  {
    var more := claims + [Claim(k, token, now)];
    forall i, j | 0 <= i < j < |more|
      ensures more[i].token != more[j].token
    {
      if j == |claims| {
        assert claims[i] in claims;
      }
    }
  }

  lemma ConsumersOutliveClaims(minted: map<string, Token>, claims: seq<Claim>, origin: map<string, Origin>,
                               consumers: map<nat, Consumer>, k: nat, o: Consumer)
    requires ConsumersOk(minted, claims, origin, consumers) && o.at == AtRead && o.token in minted
    ensures ConsumersOk(minted, claims + [Claim(k, o.token, o.now)], origin, consumers[k := o])
  {
    var more := claims + [Claim(k, o.token, o.now)];
    assert more[|claims|] == Claim(k, o.token, o.now);
    forall l | l in consumers
      ensures ConsumerOk(minted, more, origin, l, consumers[l])
    {
      assert ConsumerOk(minted, claims, origin, l, consumers[l]);
    }
  }

  lemma ClaimKeeps(c: Config, t: Tokens, origin: map<string, Origin>, clock: int, k: nat)
    requires Inv(t, origin) && k in t.consumers && t.consumers[k].at == AtClaim
    ensures Inv(ClaimToken(c, t, clock, k, t.consumers[k]), origin)
  {
    var o := t.consumers[k];
    var now := if c.clockWithClaim then clock else o.now;
    if Claimable(t, o.token, now) {
      NewClaimOk(t.rows, t.minted, t.claims, k, o.token, now);
      ConsumersOutliveClaims(t.minted, t.claims, origin, t.consumers, k, o.(now := now, at := AtRead));
      MoveKeepsLog(t.log, t.consumers, k, o.(now := now, at := AtRead), "");
    } else {
      MoveKeeps(t, origin, k, o.(at := AtMiss), "");
    }
  }

  lemma LoseKeeps(c: Config, t: Tokens, origin: map<string, Origin>, clock: int, k: nat)
    requires Inv(t, origin) && k in t.consumers && t.consumers[k].at == AtClaim
    ensures Inv(LoseClaim(c, t, clock, k), origin)
  {
    ClaimKeeps(c, t, origin, clock, k);
    hide Inv;
    MoveKeeps(ClaimToken(c, t, clock, k, t.consumers[k]), origin, k, t.consumers[k].(at := Failed(AnswerLost)), "");
  }

  /** A row's ciphertext opens to the card its entry was created with. */
  lemma DecryptedCard(c: Config, ring: KeyRing, e: Entry, i: StoreInput)
    requires Assumed(c) && VaultStore.EntryOk(c, ring, e, i)
    ensures var d := Decrypt(c.primitives, Payload(e.encryptedPan, e.keyVersion), ring);
            d.Ok? && CardFor(i, CardOf(c, e, d.value))
  {
  }

  lemma CardKeeps(t: Tokens, origin: map<string, Origin>, k: nat, o: Consumer, entryId: string, card: Card)
    requires Inv(t, origin) && k in t.consumers && t.consumers[k] == o && o.at == AtRead
    requires o.token in t.minted && t.minted[o.token].amount == o.amount && t.minted[o.token].currency == o.currency
    requires t.minted[o.token].entryId == entryId && entryId in origin && CardFor(origin[entryId].input, card)
    ensures Inv(WithConsumer(t.(log := t.log + [Consumed(k, o.token, true)]), k, o.(at := Got(entryId, card))), origin)
  {
    assert ConsumerOk(t.minted, t.claims, origin, k, o);
    var o' := o.(at := Got(entryId, card));
    MoveKeepsConsumers(t.minted, t.claims, origin, t.consumers, k, o');
    CardKeepsLog(t.log, t.consumers, k, o', o.token);
  }

  lemma ReadKeeps(c: Config, s: Store, t: Tokens, k: nat)
    requires Assumed(c) && VaultStore.Inv(c, s) && Inv(t, s.origin)
    requires k in t.consumers && t.consumers[k].at == AtRead
    ensures Inv(ReadAndDecrypt(c, s, t, k, t.consumers[k]), s.origin)
  {
    hide CardFor, CardOf, Decrypt, VaultStore.EntryOk;
    var o := t.consumers[k];
    assert ConsumerOk(t.minted, t.claims, s.origin, k, o);
    if o.token !in t.rows {
      MoveKeeps(t, s.origin, k, o.(at := Failed(RowGone)), "");
    } else {
      var row := t.rows[o.token];
      assert row.(usedAt := None) == t.minted[o.token];
      if row.amount != o.amount || row.currency != o.currency {
        MoveKeeps(t, s.origin, k, o.(at := Failed(Mismatch)), o.token);
      } else {
        var e := s.entries[row.entryId];
        DecryptedCard(c, s.ring, e, s.origin[row.entryId].input);
        var d := Decrypt(c.primitives, Payload(e.encryptedPan, e.keyVersion), s.ring);
        CardKeeps(t, s.origin, k, o, row.entryId, CardOf(c, e, d.value));
      }
    }
  }

  lemma AdvanceKeeps(c: Config, s: Store, t: Tokens, clock: int, k: nat)
    requires Assumed(c) && VaultStore.Inv(c, s) && Inv(t, s.origin) && k in t.consumers
    ensures Inv(AdvanceConsume(c, s, t, clock, k), s.origin)
  {
    hide ReadAndDecrypt, ClaimToken, CardFor, VaultStore.Inv;
    var o := t.consumers[k];
    match o.at
    case AtClaim => ClaimKeeps(c, t, s.origin, clock, k);
    case AtMiss => MoveKeeps(t, s.origin, k, AdvanceConsume(c, s, t, clock, k).consumers[k], o.token);
    case AtRead => ReadKeeps(c, s, t, k);
    case _ =>
  }

  /** Rows and entries only come to be; a mint meets a token nobody has claimed. */
  lemma MintKeeps(c: Config, s: Store, t: Tokens, clock: int,
                  entryId: string, amount: int, currency: string, token: string)
    requires Inv(t, s.origin) && s.origin.Keys == s.entries.Keys
    ensures Inv(Mint(c, s.entries, t, clock, entryId, amount, currency, token), s.origin)
  {
    hide CardFor;
    if entryId in s.entries && token !in t.minted {
      var row := Token(amount, currency, entryId, clock + c.ttl, None);
      forall k | k in t.consumers
        ensures ConsumerOk(t.minted[token := row], t.claims, s.origin, k, t.consumers[k])
      {
        assert ConsumerOk(t.minted, t.claims, s.origin, k, t.consumers[k]);
      }
    }
  }

  lemma BeginKeeps(t: Tokens, origin: map<string, Origin>, clock: int,
                   k: nat, token: string, amount: int, currency: string)
    requires Inv(t, origin)
    ensures Inv(BeginConsume(t, clock, k, token, amount, currency), origin)
  {
    if k !in t.consumers {
      MoveKeepsConsumers(t.minted, t.claims, origin, t.consumers, k, Consumer(token, amount, currency, clock, AtClaim));
    }
  }

  lemma PurgeKeeps(t: Tokens, origin: map<string, Origin>, now: int)
    requires Inv(t, origin)
    ensures Inv(Purged(t, now), origin)
  {
  }

  lemma OriginGrows(t: Tokens, origin: map<string, Origin>, more: map<string, Origin>)
    requires Inv(t, origin) && Extends(origin, more)
    ensures Inv(t, more)
  {
    forall k | k in t.consumers
      ensures ConsumerOk(t.minted, t.claims, more, k, t.consumers[k])
    {
      assert ConsumerOk(t.minted, t.claims, origin, k, t.consumers[k]);
    }
  }

  ghost predicate Extends(origin: map<string, Origin>, more: map<string, Origin>) {
    forall id | id in origin :: id in more && more[id] == origin[id]
  }

  lemma CreateOnlyAdds(c: Config, s: Store, k: nat, i: StoreInput, iv: bytes, id: string)
    requires s.origin.Keys == s.entries.Keys
    ensures Extends(s.origin, CreateEntry(c, s, k, i, iv, id).origin)
  {
    hide NewEntry;
  }

  lemma StoreOnlyAdds(c: Config, s: Store, e: Event)
    requires s.origin.Keys == s.entries.Keys
    ensures Extends(s.origin, ApplyStore(c, s, e).origin)
  {
    hide CreateEntry, FingerprintPan;
    if (e.StoreStep? || e.StoreLost?) && e.k in s.storers && s.storers[e.k].at == AtCreate {
      CreateOnlyAdds(c, s, e.k, s.storers[e.k].input, e.iv, e.id);
    }
  }

  lemma ApplyKeeps(c: Config, s: State, e: Event)
    requires Assumed(c) && VaultStore.Inv(c, s.store) && Inv(s.tokens, s.store.origin)
    ensures Inv(ApplyTokens(c, s, e), s.store.origin)
  {
    hide AdvanceConsume, Mint, Purged, BeginConsume;
    match e
    case MintToken(entryId, amount, currency, token) =>
      MintKeeps(c, s.store, s.tokens, s.clock, entryId, amount, currency, token);
    case ConsumeCall(k, token, amount, currency) =>
      BeginKeeps(s.tokens, s.store.origin, s.clock, k, token, amount, currency);
    case ConsumeStep(k) => if k in s.tokens.consumers { AdvanceKeeps(c, s.store, s.tokens, s.clock, k); }
    case ConsumeLost(k) =>
      if k in s.tokens.consumers && s.tokens.consumers[k].at == AtClaim {
        LoseKeeps(c, s.tokens, s.store.origin, s.clock, k);
      }
    case PurgeTokens(now) => PurgeKeeps(s.tokens, s.store.origin, now);
    case _ =>
  }

  lemma {:induction false} RunKeeps(c: Config, s: State, events: seq<Event>)
    requires Assumed(c) && VaultStore.Inv(c, s.store) && Inv(s.tokens, s.store.origin)
    ensures VaultStore.Inv(c, Run(c, s, events).store)
    ensures Inv(Run(c, s, events).tokens, Run(c, s, events).store.origin)
    decreases |events|
  {
    hide ApplyTokens, ApplyStore, Inv;
    if events != [] {
      var s' := Apply(c, s, events[0]);
      ApplyKeeps(c, s, events[0]);
      VaultStore.ApplyKeeps(c, s.store, events[0]);
      StoreOnlyAdds(c, s.store, events[0]);
      OriginGrows(s'.tokens, s.store.origin, s'.store.origin);
      RunKeeps(c, s', events[1..]);
    }
  }

  lemma RunInv(c: Config, ring: KeyRing, clock: int, events: seq<Event>)
    requires Assumed(c) && ring.activeVersion in ring.keys
    ensures VaultStore.Inv(c, Run(c, Init(ring, clock), events).store)
    ensures Inv(Run(c, Init(ring, clock), events).tokens, Run(c, Init(ring, clock), events).store.origin)
  {
    RunKeeps(c, Init(ring, clock), events);
  }

  // --- what it means for callers -------------------------------------------------------

  /**
   Single use.  Over every run no token is claimed twice, and at most one consume call per
   token returns a card; and that call claimed the token before it expired, for the amount and
   currency it was minted with, and gets the card of the entry it was minted for.
   */
  lemma TokensAreSingleUse(c: Config, ring: KeyRing, clock: int, events: seq<Event>, j: nat, k: nat)
    requires Assumed(c) && ring.activeVersion in ring.keys
    ensures var t := Run(c, Init(ring, clock), events).tokens;
            && (j in t.consumers && k in t.consumers && t.consumers[j].at.Got? && t.consumers[k].at.Got? ==>
                  t.consumers[j].token == t.consumers[k].token ==> j == k)
            && (k in t.consumers && t.consumers[k].at.Got? ==>
                  var o := t.consumers[k];
                  && Claim(k, o.token, o.now) in t.claims
                  && o.token in t.minted && o.now < t.minted[o.token].expiresAt
                  && t.minted[o.token].amount == o.amount && t.minted[o.token].currency == o.currency
                  && t.minted[o.token].entryId == o.at.entryId)
            && (forall i, i' | 0 <= i < i' < |t.claims| :: t.claims[i].token != t.claims[i'].token)
  {
    hide CardFor, VaultStore.Inv;
    RunInv(c, ring, clock, events);
    var s := Run(c, Init(ring, clock), events);
    var t := s.tokens;
    if j in t.consumers {
      assert ConsumerOk(t.minted, t.claims, s.store.origin, j, t.consumers[j]);
    }
    if k in t.consumers {
      assert ConsumerOk(t.minted, t.claims, s.store.origin, k, t.consumers[k]);
    }
  }

  /** Success events equal returned cards: one for each call that got one, none for any other. */
  lemma SuccessEventsAreCards(c: Config, ring: KeyRing, clock: int, events: seq<Event>, k: nat)
    requires Assumed(c) && ring.activeVersion in ring.keys
    ensures var t := Run(c, Init(ring, clock), events).tokens;
            Successes(t.log, k) == if k in t.consumers && t.consumers[k].at.Got? then 1 else 0
  {
    RunInv(c, ring, clock, events);
  }

  /** A returned card is the one its entry was created with, and the entry's row agrees. */
  predicate Faithful(c: Config, s: Store, entryId: string, card: Card) {
    && entryId in s.origin && entryId in s.entries
    && var i := s.origin[entryId].input;
    && card.pan == Luhn.Strip(i.pan) && Luhn.Checks(card.pan) && card.cvc == i.cvc
    && card.last4 == card.pan[|card.pan| - 4..] && card.bin == card.pan[..6]
    && card.expMonth == i.expiryMonth && card.expYear == ShortYear(i.expiryYear)
    && card.cardholderName == i.cardholderName
    && s.entries[entryId].panFingerprint == FingerprintPan(c, card.pan)
  }

  /** The accepted cards, spelled out. */
  lemma AcceptsIff(i: StoreInput)
    ensures var y := i.expiryYear;
            Accepts(i) <==>
              && Luhn.Checks(Luhn.Strip(i.pan))
              && i.expiryMonth in {"01", "02", "03", "04", "05", "06", "07", "08", "09", "10", "11", "12"}
              && (|y| == 2 || |y| == 4) && '0' <= y[|y| - 2] <= '9' && '0' <= y[|y| - 1] <= '9'
  {
    MonthIff(i.expiryMonth);
    hide ValidMonth, Luhn.Checks;
    var y := i.expiryYear;
    if |y| == 4 {
      assert y[2..][0] == y[2] && y[2..][1] == y[3];
    }
  }

  lemma MonthIff(m: string)
    ensures ValidMonth(m) <==> m in {"01", "02", "03", "04", "05", "06", "07", "08", "09", "10", "11", "12"}
  {
    if |m| == 2 {
      assert m == [m[0], m[1]];
    }
  }

  lemma GotIsFaithful(c: Config, s: Store, entryId: string, card: Card)
    requires entryId in s.origin && entryId in s.entries && CardFor(s.origin[entryId].input, card)
    requires VaultStore.EntryOk(c, s.ring, s.entries[entryId], s.origin[entryId].input)
    ensures Faithful(c, s, entryId, card)
  {
    hide Decrypt, FingerprintPan;
  }

  /**
   Round trip.  In every reachable vault, a consumed card is the one first stored: its number
   with spaces and dashes stripped, Luhn-valid, its last4 and bin that number's own ends, its
   CVC and expiry as stored; through the envelope, across key rotations.  No consume of a
   reachable vault ever fails to decrypt.
   */
  lemma ConsumedCardIsStoredCard(c: Config, ring: KeyRing, clock: int, events: seq<Event>, k: nat)
    requires Assumed(c) && ring.activeVersion in ring.keys
    ensures var s := Run(c, Init(ring, clock), events);
            k in s.tokens.consumers ==>
              var at := s.tokens.consumers[k].at;
              at != Failed(Undecryptable) && (at.Got? ==> Faithful(c, s.store, at.entryId, at.card))
  {
    hide CardFor, VaultStore.EntryOk, Faithful;
    RunInv(c, ring, clock, events);
    var s := Run(c, Init(ring, clock), events);
    if k in s.tokens.consumers {
      var at := s.tokens.consumers[k].at;
      assert ConsumerOk(s.tokens.minted, s.tokens.claims, s.store.origin, k, s.tokens.consumers[k]);
      if at.Got? {
        GotIsFaithful(c, s.store, at.entryId, at.card);
      }
    }
  }

  /** A card against what the store that made its entry was given, field by field. */
  predicate AsGiven(i: StoreInput, card: Card) {
    var y := i.expiryYear;
    && (|y| == 2 || |y| == 4) && card.expYear == y[|y| - 2..]
    && |card.expYear| == 2 && (forall d | d in card.expYear :: '0' <= d <= '9')
    && card.expMonth == i.expiryMonth
    && card.expMonth in {"01", "02", "03", "04", "05", "06", "07", "08", "09", "10", "11", "12"}
    && card.cardholderName == i.cardholderName && card.cvc == i.cvc
    && card.pan == Luhn.Strip(i.pan) && 12 <= |card.pan| <= 19
    && card.last4 == card.pan[|card.pan| - 4..] && card.bin == card.pan[..6]
  }

  lemma CardIsAsGiven(i: StoreInput, card: Card)
    requires CardFor(i, card)
    ensures AsGiven(i, card)
  {
    AcceptsIff(i);
    hide ValidMonth;
    assert |i.expiryYear| == 2 ==> i.expiryYear[0..] == i.expiryYear;
  }

  /** In every reachable vault a consumed card is as it was given: its year is the last two digits of that year. */
  lemma ConsumedCardIsAsGiven(c: Config, ring: KeyRing, clock: int, events: seq<Event>, k: nat)
    requires Assumed(c) && ring.activeVersion in ring.keys
    ensures var s := Run(c, Init(ring, clock), events);
            k in s.tokens.consumers && s.tokens.consumers[k].at.Got? ==>
              var at := s.tokens.consumers[k].at;
              at.entryId in s.store.origin && AsGiven(s.store.origin[at.entryId].input, at.card)
  {
    hide Run, VaultStore.Inv, AsGiven, CardFor;
    RunInv(c, ring, clock, events);
    var s := Run(c, Init(ring, clock), events);
    if k in s.tokens.consumers && s.tokens.consumers[k].at.Got? {
      var o := s.tokens.consumers[k];
      assert ConsumerOk(s.tokens.minted, s.tokens.claims, s.store.origin, k, o);
      CardIsAsGiven(s.store.origin[o.at.entryId].input, o.at.card);
    }
  }
}
