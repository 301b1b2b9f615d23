/**
 storeCard and consumeRetrievalToken run with nobody else awake: what their statements, taken
 one after the other from VaultProtocol, add up to; and that a card stored, tokenised and
 consumed comes back.
 */
module VaultCalls {
  import opened Prelude
  import opened Bytes
  import Luhn
  import opened Envelope
  import opened VaultProtocol
  import VaultStore
  import VaultTokens

  // --- a call alone -------------------------------------------------------------------

  /** Where a lone call with an accepted card goes: to the row of its key, of its card, or a new one. */
  function Resolved(c: Config, s: Store, k: nat, i: StoreInput, iv: bytes, id: string): Store {
    var fp := FingerprintPan(c, Luhn.Strip(i.pan));
    if HasKey(i) && i.idempotencyKey.value in s.byKey then Found(s, k, i, s.byKey[i.idempotencyKey.value])
    else if fp !in s.byFp then CreateEntry(c, s, k, i, iv, id)
    else if i.onDuplicate == Some(ErrorOnDuplicate)
    then WithStorer(s.(log := s.log + [DuplicateRejected(s.byFp[fp])]), k, i, Duplicate(s.byFp[fp]))
    else Found(s, k, i, s.byFp[fp])
  }

  /** Only the call's own last position is remembered. */
  lemma Overwrites(s: Store, k: nat, i: StoreInput, at: StorePc, next: StorePc)
    ensures WithStorer(WithStorer(s, k, i, at), k, i, next) == WithStorer(s, k, i, next)
  {
    assert s.storers[k := Storer(i, at)][k := Storer(i, next)] == s.storers[k := Storer(i, next)];
  }

  lemma InsertOverwrites(s: Store, k: nat, i: StoreInput, at: StorePc, id: string, e: Entry)
    ensures Insert(WithStorer(s, k, i, at), k, i, id, e) == Insert(s, k, i, id, e)
  {
    var o := Storer(i, Stored(id, e.panLast4, false));
    assert s.storers[k := Storer(i, at)][k := o] == s.storers[k := o];
  }

  lemma CreateOverwrites(c: Config, s: Store, k: nat, i: StoreInput, at: StorePc, iv: bytes, id: string)
    ensures CreateEntry(c, WithStorer(s, k, i, at), k, i, iv, id) == CreateEntry(c, s, k, i, iv, id)
    ensures var t := CreateEntry(c, s, k, i, iv, id);
            k in t.storers && t.storers[k].input == i && (t.storers[k].at == Refused || t.storers[k].at.Stored?)
  {
    hide NewEntry, Insert;
    Overwrites(s, k, i, at, Refused);
    match NewEntry(c, s.ring, i, iv)
    case Err(_) =>
    case Ok(e) =>
      InsertOverwrites(s, k, i, at, id, e);
      Inserted(s, k, i, id, e);
  }

  lemma Inserted(s: Store, k: nat, i: StoreInput, id: string, e: Entry)
    ensures var t := Insert(s, k, i, id, e); k in t.storers && t.storers[k] == Storer(i, Stored(id, e.panLast4, false))
  {
  }

  /** From the fingerprint lookup on. */
  lemma FromFp(c: Config, s: Store, k: nat, i: StoreInput, iv: bytes, id: string)
    requires |iv| == IV_LEN && !(HasKey(i) && i.idempotencyKey.value in s.byKey)
    ensures var t := AdvanceStore(c, WithStorer(s, k, i, AtFp), k, iv, id);
            AdvanceStore(c, t, k, iv, id) == Resolved(c, s, k, i, iv, id)
  {
    hide CreateEntry, FingerprintPan;
    var fp := FingerprintPan(c, Luhn.Strip(i.pan));
    if fp !in s.byFp {
      Overwrites(s, k, i, AtFp, AtCreate);
      CreateOverwrites(c, s, k, i, AtCreate, iv, id);
    } else if i.onDuplicate == Some(ErrorOnDuplicate) {
      Overwrites(s.(log := s.log + [DuplicateRejected(s.byFp[fp])]), k, i, AtFp, Duplicate(s.byFp[fp]));
    } else {
      Overwrites(s, k, i, AtFp, Found(s, k, i, s.byFp[fp]).storers[k].at);
    }
  }

  predicate Ended(s: Store, k: nat) {
    k in s.storers && (s.storers[k].at == Refused || s.storers[k].at.Stored? || s.storers[k].at.Duplicate?)
  }

  lemma EndedStays(c: Config, s: Store, k: nat, iv: bytes, id: string)
    requires Ended(s, k)
    ensures AdvanceStore(c, s, k, iv, id) == s
  {
    hide CreateEntry, FingerprintPan, Found;
  }

  lemma ResolvedEnds(c: Config, s: Store, k: nat, i: StoreInput, iv: bytes, id: string)
    ensures Ended(Resolved(c, s, k, i, iv, id), k)
  {
    hide CreateEntry, FingerprintPan;
    CreateOverwrites(c, s, k, i, AtCreate, iv, id);
  }

  lemma ByKey(c: Config, s: Store, k: nat, i: StoreInput, iv: bytes, id: string)
    requires Accepts(i) && HasKey(i)
    ensures var t := AdvanceStore(c, WithStorer(s, k, i, AtKey), k, iv, id);
            if i.idempotencyKey.value in s.byKey then t == Resolved(c, s, k, i, iv, id)
            else t == WithStorer(s, k, i, AtFp)
  {
    hide CreateEntry, FingerprintPan;
    if i.idempotencyKey.value in s.byKey {
      Overwrites(s, k, i, AtKey, Found(s, k, i, s.byKey[i.idempotencyKey.value]).storers[k].at);
    } else {
      Overwrites(s, k, i, AtKey, AtFp);
    }
  }

  /** A call alone ends where Resolved says, if its checks let it start. */
  lemma StoreAloneResolves(c: Config, s: Store, k: nat, i: StoreInput, iv: bytes, id: string)
    requires |iv| == IV_LEN
    ensures StoreAlone(c, s, k, i, iv, id)
            == if Accepts(i) then Resolved(c, s, k, i, iv, id) else WithStorer(s, k, i, Refused)
  {
    hide AdvanceStore, Resolved, Accepts;
    var s1 := s.(storers := s.storers[k := BeginStore(i)]);
    var s2 := AdvanceStore(c, s1, k, iv, id);
    if !Accepts(i) {
      EndedStays(c, s1, k, iv, id);
    } else {
      ResolvedEnds(c, s, k, i, iv, id);
      EndedStays(c, Resolved(c, s, k, i, iv, id), k, iv, id);
      if HasKey(i) {
        ByKey(c, s, k, i, iv, id);
      }
      if !(HasKey(i) && i.idempotencyKey.value in s.byKey) {
        FromFp(c, s, k, i, iv, id);
      }
    }
  }

  /** A whole consumeRetrievalToken call with nobody else awake: its claim, then its read or its excuse. */
  function ConsumeAlone(c: Config, s: Store, t: Tokens, clock: int,
                        k: nat, token: string, amount: int, currency: string): (u: Tokens)
    ensures k in u.consumers
  {
    var t1 := t.(consumers := t.consumers[k := Consumer(token, amount, currency, clock, AtClaim)]);
    var t2 := AdvanceConsume(c, s, t1, clock, k);
    AdvanceConsume(c, s, t2, clock, k)
  }

  lemma ConsumeAloneIsARun(c: Config, s: State, k: nat, token: string, amount: int, currency: string)
    requires k !in s.tokens.consumers
    ensures Run(c, s, [ConsumeCall(k, token, amount, currency), ConsumeStep(k), ConsumeStep(k)])
            == s.(tokens := ConsumeAlone(c, s.store, s.tokens, s.clock, k, token, amount, currency))
  {
    hide CardOf, Decrypt;
    var call, step := ConsumeCall(k, token, amount, currency), ConsumeStep(k);
    assert [call] + [step] + [step] == [call, step, step];
    RunAppend(c, s, [call] + [step], [step]);
    RunAppend(c, s, [call], [step]);
    RunOne(c, s, call);
    RunOne(c, Apply(c, s, call), step);
    RunOne(c, Run(c, s, [call] + [step]), step);
  }

  /** Calls that end without having been logged: the row, or its plaintext, was out of reach. */
  predicate Unlogged(at: ConsumePc) { at == Failed(RowGone) || at == Failed(Undecryptable) }

  /** The tables after a lone call that gets answer `at`. */
  function Answered(t: Tokens, now: int, k: nat, token: string, amount: int, currency: string, at: ConsumePc): Tokens {
    Tokens(if Claimable(t, token, now) then t.rows[token := t.rows[token].(usedAt := Some(now))] else t.rows,
           t.consumers[k := Consumer(token, amount, currency, now, at)],
           if Unlogged(at) then t.log else t.log + [Consumed(k, token, at.Got?)],
           t.minted,
           if Claimable(t, token, now) then t.claims + [Claim(k, token, now)] else t.claims)
  }

  /**
   What a lone call answers: a card exactly if the token is there, unused and unexpired, was
   minted for the same amount and currency, and its entry is there and opens.  Only a claim
   changes the table, and it spends the token even when the terms then do not match.
   */
  lemma ConsumeAloneAnswers(c: Config, s: Store, t: Tokens, clock: int,
                            k: nat, token: string, amount: int, currency: string)
    ensures ConsumeAlone(c, s, t, clock, k, token, amount, currency)
            == Answered(t, clock, k, token, amount, currency, Answer(c, s, t.rows, clock, token, amount, currency))
  {
    hide CardOf, Decrypt;
    var u := ConsumeAlone(c, s, t, clock, k, token, amount, currency);
    var o := Consumer(token, amount, currency, clock, AtClaim);
    var at := Answer(c, s, t.rows, clock, token, amount, currency);
    assert u.consumers == t.consumers[k := o.(at := at)];
  }

  function Answer(c: Config, s: Store, rows: map<string, Token>, now: int,
                  token: string, amount: int, currency: string): ConsumePc
  {
    if token !in rows then Failed(NotFound)
    else
      var row := rows[token];
      if row.usedAt.Some? then Failed(AlreadyUsed)
      else if row.expiresAt <= now then Failed(TokenExpired)
      else if row.entryId !in s.entries then Failed(RowGone)
      else if row.amount != amount || row.currency != currency then Failed(Mismatch)
      else
        var e := s.entries[row.entryId];
        match Decrypt(c.primitives, Payload(e.encryptedPan, e.keyVersion), s.ring)
        case Err(_) => Failed(Undecryptable)
        case Ok(plaintext) => Got(row.entryId, CardOf(c, e, plaintext))
  }

  /** The key names a row already. */
  predicate ByItsKey(s: Store, i: StoreInput) { HasKey(i) && i.idempotencyKey.value in s.byKey }

  /** When a lone call is answered with a row: its key's, else its card's, else its own. */
  predicate StoreSucceeds(c: Config, s: Store, i: StoreInput, id: string) {
    && Accepts(i)
    && var fp := FingerprintPan(c, Luhn.Strip(i.pan));
       || ByItsKey(s, i)
       || (fp in s.byFp && i.onDuplicate != Some(ErrorOnDuplicate))
       || (fp !in s.byFp && !KeyTaken(s, i.idempotencyKey) && id !in s.entries)
  }

  /** Call k, made at s, has ended with a row of t: the row of its key, or one that holds its card. */
  ghost predicate AnsweredWithRow(c: Config, s: Store, t: Store, k: nat, i: StoreInput) {
    && k in t.storers && t.storers[k].at.Stored? && t.storers[k].at.id in t.entries
    && var row := t.storers[k].at.id;
       && t.entries[row].panLast4 == t.storers[k].at.panLast4
       && if ByItsKey(s, i) then row == s.byKey[i.idempotencyKey.value]
          else t.entries[row].panFingerprint == FingerprintPan(c, Luhn.Strip(i.pan))
  }

  lemma CreateSucceedsIff(c: Config, s: Store, k: nat, i: StoreInput, iv: bytes, id: string)
    requires Assumed(c) && s.ring.activeVersion in s.ring.keys && |iv| == IV_LEN && Accepts(i) && !ByItsKey(s, i)
    requires FingerprintPan(c, Luhn.Strip(i.pan)) !in s.byFp
    ensures var t := CreateEntry(c, s, k, i, iv, id);
            && k in t.storers && t.storers[k].input == i
            && (t.storers[k].at.Stored? <==> !KeyTaken(s, i.idempotencyKey) && id !in s.entries)
            && (t.storers[k].at.Stored? ==> AnsweredWithRow(c, s, t, k, i))
  {
    hide NewEntry, FingerprintPan, Accepts, Encrypt, Decrypt;
    VaultStore.NewEntryOk(c, s.ring, i, iv);
  }

  lemma FoundAnswers(c: Config, s: Store, k: nat, i: StoreInput, row: string)
    requires row in s.entries
    requires if ByItsKey(s, i) then row == s.byKey[i.idempotencyKey.value]
             else s.entries[row].panFingerprint == FingerprintPan(c, Luhn.Strip(i.pan))
    ensures var t := Found(s, k, i, row);
            k in t.storers && t.storers[k].input == i && t.storers[k].at.Stored? && AnsweredWithRow(c, s, t, k, i)
  {
    hide FingerprintPan;
  }

  /** Exactly when a lone call whose checks let it start succeeds, and with what. */
  lemma ResolvedSucceedsIff(c: Config, s: Store, k: nat, i: StoreInput, iv: bytes, id: string)
    requires Assumed(c) && s.ring.activeVersion in s.ring.keys && |iv| == IV_LEN && Accepts(i)
    requires VaultStore.FpIndexOk(s.entries, s.byFp) && VaultStore.KeyIndexOk(s.entries, s.byKey)
    ensures var t := Resolved(c, s, k, i, iv, id);
            && k in t.storers && t.storers[k].input == i
            && (t.storers[k].at.Stored? <==> StoreSucceeds(c, s, i, id))
            && (t.storers[k].at.Stored? ==> AnsweredWithRow(c, s, t, k, i))
  {
    hide FingerprintPan, Accepts, CreateEntry, AnsweredWithRow, Found, KeyTaken;
    var fp := FingerprintPan(c, Luhn.Strip(i.pan));
    if ByItsKey(s, i) {
      FoundAnswers(c, s, k, i, s.byKey[i.idempotencyKey.value]);
    } else if fp !in s.byFp {
      CreateSucceedsIff(c, s, k, i, iv, id);
    } else if i.onDuplicate != Some(ErrorOnDuplicate) {
      FoundAnswers(c, s, k, i, s.byFp[fp]);
    }
  }

  /** And of any lone call. */
  lemma LoneStoreSucceedsIff(c: Config, s: Store, k: nat, i: StoreInput, iv: bytes, id: string)
    requires Assumed(c) && VaultStore.Inv(c, s) && |iv| == IV_LEN
    ensures var t := StoreAlone(c, s, k, i, iv, id);
            && k in t.storers && t.storers[k].input == i
            && (t.storers[k].at.Stored? <==> StoreSucceeds(c, s, i, id))
            && (t.storers[k].at.Stored? ==> AnsweredWithRow(c, s, t, k, i))
  {
    StoreAloneResolves(c, s, k, i, iv, id);
    if Accepts(i) {
      ResolvedSucceedsIff(c, s, k, i, iv, id);
    }
    hide StoreAlone, Resolved, AnsweredWithRow, Accepts;
  }

  /** If HMAC keeps card numbers apart, rows with a call's fingerprint hold its card number. */
  lemma FingerprintTellsCards(c: Config, ring: KeyRing, e: Entry, first: StoreInput, i: StoreInput)
    requires forall a, b | c.hmac(a) == c.hmac(b) :: a == b
    requires VaultStore.EntryOk(c, ring, e, first) && Accepts(i)
    requires e.panFingerprint == FingerprintPan(c, Luhn.Strip(i.pan))
    ensures Luhn.Strip(first.pan) == Luhn.Strip(i.pan)
  {
    VaultStore.FingerprintOfDigits(c, i.pan);
    VaultStore.FingerprintOfDigits(c, first.pan);
  }

  /**
   What the key is for: a create took effect, but the call that made it never heard; the same
   request again, alone, is answered with that entry, and makes no other.
   */
  lemma RetryFindsTheLostEntry(c: Config, s: Store, k: nat, iv: bytes, id: string, j: nat, iv2: bytes, id2: string)
    requires Assumed(c) && s.ring.activeVersion in s.ring.keys && |iv| == |iv2| == IV_LEN
    requires k in s.storers && s.storers[k].at == AtCreate
    requires var i := s.storers[k].input;
             && Accepts(i) && HasKey(i) && !KeyTaken(s, i.idempotencyKey)
             && id !in s.entries && FingerprintPan(c, Luhn.Strip(i.pan)) !in s.byFp
    ensures var i, t := s.storers[k].input, LoseCreate(c, s, k, iv, id);
            var u := StoreAlone(c, t, j, i, iv2, id2);
            && t.storers[k].at == Refused && t.entries.Keys == s.entries.Keys + {id}
            && u.storers[j].at == Stored(id, t.entries[id].panLast4, true) && u.entries == t.entries
  {
    hide StoreAlone, Resolved, Accepts, FingerprintPan;
    var i, t := s.storers[k].input, LoseCreate(c, s, k, iv, id);
    CreateAddsRow(c, s, k, i, iv, id);
    LosingKeepsTables(c, s, k, iv, id);
    StoreAloneResolves(c, t, j, i, iv2, id2);
    assert Resolved(c, t, j, i, iv2, id2) == Found(t, j, i, id) by {
      KeyResolves(c, t, j, i, iv2, id2);
    }
  }

  lemma KeyResolves(c: Config, s: Store, k: nat, i: StoreInput, iv: bytes, id: string)
    requires HasKey(i) && i.idempotencyKey.value in s.byKey
    ensures Resolved(c, s, k, i, iv, id) == Found(s, k, i, s.byKey[i.idempotencyKey.value])
  {
  }

  lemma LosingKeepsTables(c: Config, s: Store, k: nat, iv: bytes, id: string)
    requires k in s.storers && s.storers[k].at == AtCreate && |iv| == IV_LEN
    ensures var t, u := CreateEntry(c, s, k, s.storers[k].input, iv, id), LoseCreate(c, s, k, iv, id);
            u.entries == t.entries && u.byKey == t.byKey && u.byFp == t.byFp && u.ring == t.ring
            && k in u.storers && u.storers[k].at == Refused
  {
    hide CreateEntry;
  }

  lemma CreateAddsRow(c: Config, s: Store, k: nat, i: StoreInput, iv: bytes, id: string)
    requires Assumed(c) && s.ring.activeVersion in s.ring.keys && |iv| == IV_LEN && Accepts(i) && HasKey(i)
    requires !KeyTaken(s, i.idempotencyKey) && id !in s.entries && FingerprintPan(c, Luhn.Strip(i.pan)) !in s.byFp
    ensures var t := CreateEntry(c, s, k, i, iv, id);
            && t.entries.Keys == s.entries.Keys + {id}
            && i.idempotencyKey.value in t.byKey && t.byKey[i.idempotencyKey.value] == id
  {
    hide NewEntry, FingerprintPan, Accepts, Encrypt, Decrypt;
    VaultStore.NewEntryOk(c, s.ring, i, iv);
  }

  /** A token just minted for an entry that opens is answered with a card. */
  lemma FreshTokenIsGood(c: Config, s: State, i: StoreInput, k: nat,
                         entryId: string, amount: int, currency: string, token: string)
    requires Assumed(c) && 0 < c.ttl && token !in s.tokens.minted
    requires entryId in s.store.entries && VaultStore.EntryOk(c, s.store.ring, s.store.entries[entryId], i)
    ensures var t := Mint(c, s.store.entries, s.tokens, s.clock, entryId, amount, currency, token);
            var at := ConsumeAlone(c, s.store, t, s.clock, k, token, amount, currency).consumers[k].at;
            at.Got? && at.entryId == entryId
  {
    hide ConsumeAlone;
    ConsumeAloneAnswers(c, s.store, Mint(c, s.store.entries, s.tokens, s.clock, entryId, amount, currency, token),
                        s.clock, k, token, amount, currency);
  }

  function StoreEvents(k: nat, i: StoreInput, iv: bytes, id: string): seq<Event> {
    [StoreCall(k, i), StoreStep(k, iv, id), StoreStep(k, iv, id), StoreStep(k, iv, id)]
  }

  function ConsumeEvents(k: nat, token: string, amount: int, currency: string): seq<Event> {
    [ConsumeCall(k, token, amount, currency), ConsumeStep(k), ConsumeStep(k)]
  }

  /**
   Round trip.  In any reachable vault, store a card, mint a token for the entry named in the
   answer, consume it on the same terms.  The store is answered exactly when StoreSucceeds says;
   then the card comes back, with the last four digits that were answered and the number the
   entry was first stored with, separators stripped: the number that was given, unless the
   call's key named another card's row.
   */
  lemma StoreMintConsume(c: Config, ring: KeyRing, clock: int, events: seq<Event>,
                         k: nat, i: StoreInput, iv: bytes, id: string,
                         amount: int, currency: string, token: string, j: nat)
    requires Assumed(c) && ring.activeVersion in ring.keys && 0 < c.ttl && |iv| == IV_LEN
    requires forall a, b | c.hmac(a) == c.hmac(b) :: a == b
    requires var s := Run(c, Init(ring, clock), events);
             k !in s.store.storers && j !in s.tokens.consumers && token !in s.tokens.minted
    ensures var s := Run(c, Init(ring, clock), events);
            var s1 := Run(c, s, StoreEvents(k, i, iv, id));
            && k in s1.store.storers
            && (s1.store.storers[k].at.Stored? <==> StoreSucceeds(c, s.store, i, id))
            && (s1.store.storers[k].at.Stored? ==>
                  var stored := s1.store.storers[k].at;
                  var s2 := Apply(c, s1, MintToken(stored.id, amount, currency, token));
                  var s3 := Run(c, s2, ConsumeEvents(j, token, amount, currency));
                  && j in s3.tokens.consumers && s3.tokens.consumers[j].at.Got?
                  && s3.tokens.consumers[j].at.entryId == stored.id && stored.id in s1.store.origin
                  && var card := s3.tokens.consumers[j].at.card;
                     && card.last4 == stored.panLast4
                     && card.pan == Luhn.Strip(s1.store.origin[stored.id].input.pan)
                     && (card.pan == Luhn.Strip(i.pan)
                         || (ByItsKey(s.store, i) && stored.id == s.store.byKey[i.idempotencyKey.value])))
  {
    hide VaultStore.EntryOk, VaultTokens.Faithful, ConsumeAlone, Mint, StoreSucceeds, FingerprintPan;
    var s := Run(c, Init(ring, clock), events);
    var s1 := Run(c, s, StoreEvents(k, i, iv, id));
    StoredCard(c, ring, clock, events, k, i, iv, id);
    if s1.store.storers[k].at.Stored? {
      var stored := s1.store.storers[k].at;
      var mint := MintToken(stored.id, amount, currency, token);
      var s2 := Apply(c, s1, mint);
      FreshTokenIsGood(c, s1, s1.store.origin[stored.id].input, j, stored.id, amount, currency, token);
      MintOnlyMints(c, s1, mint);
      ConsumeAloneIsARun(c, s2, j, token, amount, currency);
      var s3 := Run(c, s2, ConsumeEvents(j, token, amount, currency));
      var most := events + StoreEvents(k, i, iv, id) + [mint];
      RunAppend(c, Init(ring, clock), events, StoreEvents(k, i, iv, id));
      RunAppend(c, Init(ring, clock), events + StoreEvents(k, i, iv, id), [mint]);
      RunOne(c, s1, mint);
      RunAppend(c, Init(ring, clock), most, ConsumeEvents(j, token, amount, currency));
      VaultTokens.ConsumedCardIsStoredCard(c, ring, clock, most + ConsumeEvents(j, token, amount, currency), j);
      FaithfulToRow(c, s3.store, stored.id, s3.tokens.consumers[j].at.card);
    }
  }

  lemma MintOnlyMints(c: Config, s: State, e: Event)
    requires e.MintToken?
    ensures var t := Mint(c, s.store.entries, s.tokens, s.clock, e.entryId, e.amount, e.currency, e.token);
            Apply(c, s, e) == s.(tokens := t) && t.consumers == s.tokens.consumers
  {
  }

  lemma FaithfulToRow(c: Config, s: Store, id: string, card: Card)
    requires VaultTokens.Faithful(c, s, id, card) && VaultStore.EntryOk(c, s.ring, s.entries[id], s.origin[id].input)
    ensures card.pan == Luhn.Strip(s.origin[id].input.pan) && card.last4 == s.entries[id].panLast4
  {
  }

  /** What the store leaves behind, in a reachable vault. */
  lemma StoredCard(c: Config, ring: KeyRing, clock: int, events: seq<Event>,
                   k: nat, i: StoreInput, iv: bytes, id: string)
    requires Assumed(c) && ring.activeVersion in ring.keys && |iv| == IV_LEN
    requires forall a, b | c.hmac(a) == c.hmac(b) :: a == b
    requires k !in Run(c, Init(ring, clock), events).store.storers
    ensures var s := Run(c, Init(ring, clock), events);
            var s1 := Run(c, s, StoreEvents(k, i, iv, id));
            && s1.tokens == s.tokens && s1.clock == s.clock
            && k in s1.store.storers && (s1.store.storers[k].at.Stored? <==> StoreSucceeds(c, s.store, i, id))
            && (s1.store.storers[k].at.Stored? ==>
                  var stored := s1.store.storers[k].at;
                  && stored.id in s1.store.entries && stored.id in s1.store.origin
                  && VaultStore.EntryOk(c, s1.store.ring, s1.store.entries[stored.id], s1.store.origin[stored.id].input)
                  && s1.store.entries[stored.id].panLast4 == stored.panLast4
                  && (Luhn.Strip(s1.store.origin[stored.id].input.pan) == Luhn.Strip(i.pan)
                      || (ByItsKey(s.store, i) && stored.id == s.store.byKey[i.idempotencyKey.value])))
  {
    hide StoreAlone, FingerprintPan, Accepts, VaultStore.EntryOk;
    var s := Run(c, Init(ring, clock), events);
    var s1 := Run(c, s, StoreEvents(k, i, iv, id));
    StoreAloneIsARun(c, s, k, i, iv, id);
    VaultStore.RunInv(c, ring, clock, events);
    LoneStoreSucceedsIff(c, s.store, k, i, iv, id);
    RunAppend(c, Init(ring, clock), events, StoreEvents(k, i, iv, id));
    VaultStore.RunInv(c, ring, clock, events + StoreEvents(k, i, iv, id));
    if s1.store.storers[k].at.Stored? && !ByItsKey(s.store, i) {
      var row := s1.store.storers[k].at.id;
      FingerprintTellsCards(c, s1.store.ring, s1.store.entries[row], s1.store.origin[row].input, i);
    }
  }

  /** After a rotation a lone call's new row is sealed under the new key alone, and the rows before it stay. */
  lemma NewKeySealsNewRows(c: Config, s: Store, version: int, key: bytes,
                           k: nat, i: StoreInput, iv: bytes, id: string)
    requires Assumed(c) && version !in s.ring.keys && |iv| == 12 && Accepts(i) && id !in s.entries
    requires FingerprintPan(c, Luhn.Strip(i.pan)) !in s.byFp && !KeyTaken(s, i.idempotencyKey)
    ensures var t := StoreAlone(c, ApplyStore(c, s, RotateKey(version, key)), k, i, iv, id);
            && t.entries.Keys == s.entries.Keys + {id} && (forall x | x in s.entries :: t.entries[x] == s.entries[x])
            && t.entries[id].keyVersion == version
            && Decrypt(c.primitives, Payload(t.entries[id].encryptedPan, version),
                       KeyRing(version, map[version := key]))
               == Ok(c.stringify(Luhn.Strip(i.pan), i.cvc))
  {
    var r := ApplyStore(c, s, RotateKey(version, key));
    assert r == s.(ring := KeyRing(version, s.ring.keys[version := key]));
    SealedByTheActive(c, r.ring, i, iv);
    hide Encrypt, Decrypt, StoreAlone, FingerprintPan, Accepts, Luhn.Strip, NewEntry, Insert;
    NewRowIsInserted(c, r, k, i, iv, id);
  }

  lemma NewRowIsInserted(c: Config, s: Store, k: nat, i: StoreInput, iv: bytes, id: string)
    requires |iv| == 12 && Accepts(i) && id !in s.entries && NewEntry(c, s.ring, i, iv).Ok?
    requires NewEntry(c, s.ring, i, iv).value.panFingerprint == FingerprintPan(c, Luhn.Strip(i.pan))
    requires FingerprintPan(c, Luhn.Strip(i.pan)) !in s.byFp && !KeyTaken(s, i.idempotencyKey)
    ensures StoreAlone(c, s, k, i, iv, id).entries == s.entries[id := NewEntry(c, s.ring, i, iv).value]
  {
    hide Encrypt, StoreAlone, FingerprintPan, Accepts, Luhn.Strip, NewEntry, Insert;
    StoreAloneResolves(c, s, k, i, iv, id);
    InsertAdds(s, k, i, id, NewEntry(c, s.ring, i, iv).value);
  }

  lemma SealedByTheActive(c: Config, ring: KeyRing, i: StoreInput, iv: bytes)
    requires Assumed(c) && ring.activeVersion in ring.keys && |iv| == 12
    ensures NewEntry(c, ring, i, iv).Ok?
    ensures var e, v := NewEntry(c, ring, i, iv).value, ring.activeVersion;
            && e.keyVersion == v && e.panFingerprint == FingerprintPan(c, Luhn.Strip(i.pan))
            && Decrypt(c.primitives, Payload(e.encryptedPan, v), KeyRing(v, map[v := ring.keys[v]]))
               == Ok(c.stringify(Luhn.Strip(i.pan), i.cvc))
  {
    var v, pan := ring.activeVersion, Luhn.Strip(i.pan);
    DecryptUndoesEncrypt(c.primitives, c.stringify(pan, i.cvc), ring, iv, KeyRing(v, map[v := ring.keys[v]]));
    hide Encrypt, Decrypt, Luhn.Strip;
  }

  lemma InsertAdds(s: Store, k: nat, i: StoreInput, id: string, e: Entry)
    ensures Insert(s, k, i, id, e).entries == s.entries[id := e]
  {
  }
}
