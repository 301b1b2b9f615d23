/**
 What storeCard keeps, over every run of the vault: one entry per card number, rows that
 decrypt to what was first stored, and what an idempotency key promises and when it does.
 */
module VaultStore {
  import opened Prelude
  import opened Text
  import opened Bytes
  import Luhn
  import opened Envelope
  import opened VaultProtocol

  /** A row says, and decrypts to, what the call that created it stored. */
  ghost predicate EntryOk(c: Config, ring: KeyRing, e: Entry, i: StoreInput) {
    var pan := Luhn.Strip(i.pan);
    && Accepts(i)
    && e.panLast4 == pan[|pan| - 4..] && e.panBin == pan[..6]
    && e.cardholderName == i.cardholderName
    && e.panExpiryMonth == i.expiryMonth && e.panExpiryYear == ShortYear(i.expiryYear)
    && e.panFingerprint == FingerprintPan(c, pan)
    && e.idempotencyKey == i.idempotencyKey
    && Decrypt(c.primitives, Payload(e.encryptedPan, e.keyVersion), ring) == Ok(c.stringify(pan, i.cvc))
  }

  ghost predicate RowsOk(c: Config, ring: KeyRing, entries: map<string, Entry>, origin: map<string, Origin>) {
    && origin.Keys == entries.Keys
    && forall id | id in entries :: EntryOk(c, ring, entries[id], origin[id].input)
  }

  /** The unique index of the fingerprint column says what the rows say. */
  ghost predicate FpIndexOk(entries: map<string, Entry>, byFp: map<string, string>) {
    && (forall id | id in entries :: entries[id].panFingerprint in byFp && byFp[entries[id].panFingerprint] == id)
    && (forall fp | fp in byFp :: byFp[fp] in entries && entries[byFp[fp]].panFingerprint == fp)
  }

  /** And that of the idempotency key, which is nullable. */
  ghost predicate KeyIndexOk(entries: map<string, Entry>, byKey: map<string, string>) {
    && (forall id | id in entries && entries[id].idempotencyKey.Some? ::
          entries[id].idempotencyKey.value in byKey && byKey[entries[id].idempotencyKey.value] == id)
    && (forall key | key in byKey :: byKey[key] in entries && entries[byKey[key]].idempotencyKey == Some(key))
  }

  /** A row answers a call: it holds the call's card number, or it was created under its key. */
  predicate Answers(c: Config, e: Entry, i: StoreInput) {
    || e.panFingerprint == FingerprintPan(c, Luhn.Strip(i.pan))
    || (HasKey(i) && e.idempotencyKey == i.idempotencyKey)
  }

  predicate StorerOk(c: Config, entries: map<string, Entry>, o: Storer) {
    match o.at
    case Refused => true
    case AtKey => Accepts(o.input) && HasKey(o.input)
    case Stored(id, last4, _) =>
      Accepts(o.input) && id in entries && last4 == entries[id].panLast4 && Answers(c, entries[id], o.input)
    case Duplicate(id) =>
      Accepts(o.input) && id in entries && entries[id].panFingerprint == FingerprintPan(c, Luhn.Strip(o.input.pan))
    case _ => Accepts(o.input)
  }

  ghost predicate StorersOk(c: Config, entries: map<string, Entry>, storers: map<nat, Storer>) {
    forall k | k in storers :: StorerOk(c, entries, storers[k])
  }

  /** Every row was created by a call of the run, which reported it as new or never heard of it. */
  ghost predicate CreatorsOk(origin: map<string, Origin>, storers: map<nat, Storer>) {
    forall id | id in origin ::
      && origin[id].call in storers
      && var o := storers[origin[id].call];
         o.input == origin[id].input && (o.at == Refused || (o.at.Stored? && o.at.id == id && !o.at.deduped))
  }

  ghost predicate Inv(c: Config, s: Store) {
    && s.ring.activeVersion in s.ring.keys
    && RowsOk(c, s.ring, s.entries, s.origin)
    && FpIndexOk(s.entries, s.byFp)
    && KeyIndexOk(s.entries, s.byKey)
    && CreatorsOk(s.origin, s.storers)
    && StorersOk(c, s.entries, s.storers)
  }

  // --- preservation -----------------------------------------------------------------

  /** A step that only moves one unfinished call. */
  lemma MoveKeeps(c: Config, s: Store, k: nat, i: StoreInput, at: StorePc)
    requires Inv(c, s) && StorerOk(c, s.entries, Storer(i, at))
    requires k in s.storers ==> !s.storers[k].at.Stored? && s.storers[k].at != Refused
    ensures Inv(c, WithStorer(s, k, i, at))
  {
    MoveKeepsCalls(c, s.entries, s.origin, s.storers, k, Storer(i, at));
  }

  lemma MoveKeepsCalls(c: Config, entries: map<string, Entry>, origin: map<string, Origin>,
                       storers: map<nat, Storer>, k: nat, o: Storer)
    requires CreatorsOk(origin, storers) && StorersOk(c, entries, storers) && StorerOk(c, entries, o)
    requires k in storers ==> !storers[k].at.Stored? && storers[k].at != Refused
    ensures CreatorsOk(origin, storers[k := o]) && StorersOk(c, entries, storers[k := o])
  {
  }

  lemma NewEntryOk(c: Config, ring: KeyRing, i: StoreInput, iv: bytes)
    requires Assumed(c) && Accepts(i) && |iv| == IV_LEN && ring.activeVersion in ring.keys
    ensures var e := NewEntry(c, ring, i, iv); e.Ok? && EntryOk(c, ring, e.value, i)
  {
    DecryptUndoesEncrypt(c.primitives, c.stringify(Luhn.Strip(i.pan), i.cvc), ring, iv, ring);
  }

  lemma InsertKeepsFpIndex(entries: map<string, Entry>, byFp: map<string, string>, id: string, e: Entry)
    requires FpIndexOk(entries, byFp) && id !in entries && e.panFingerprint !in byFp
    ensures FpIndexOk(entries[id := e], byFp[e.panFingerprint := id])
  {
  }

  lemma InsertKeepsKeyIndex(entries: map<string, Entry>, byKey: map<string, string>, id: string, e: Entry)
    requires KeyIndexOk(entries, byKey) && id !in entries
    requires e.idempotencyKey.Some? ==> e.idempotencyKey.value !in byKey
    ensures KeyIndexOk(entries[id := e], if e.idempotencyKey.Some? then byKey[e.idempotencyKey.value := id] else byKey)
  {
  }

  lemma NewRowKeepsCall(c: Config, entries: map<string, Entry>, id: string, e: Entry, o: Storer)
    requires StorerOk(c, entries, o) && id !in entries
    ensures StorerOk(c, entries[id := e], o)
  {
  }

  lemma InsertKeepsCalls(c: Config, entries: map<string, Entry>, origin: map<string, Origin>,
                         storers: map<nat, Storer>, k: nat, i: StoreInput, id: string, e: Entry)
    requires CreatorsOk(origin, storers) && StorersOk(c, entries, storers)
    requires k in storers && storers[k] == Storer(i, AtCreate)
    requires Accepts(i) && Answers(c, e, i) && id !in entries && id !in origin
    ensures var now := storers[k := Storer(i, Stored(id, e.panLast4, false))];
            CreatorsOk(origin[id := Origin(k, i)], now) && StorersOk(c, entries[id := e], now)
  {
    forall l | l in storers
      ensures StorerOk(c, entries[id := e], storers[l])
    {
      NewRowKeepsCall(c, entries, id, e, storers[l]);
    }
  }

  lemma InsertKeepsRows(c: Config, ring: KeyRing, entries: map<string, Entry>, origin: map<string, Origin>,
                        i: StoreInput, k: nat, id: string, e: Entry)
    requires RowsOk(c, ring, entries, origin) && EntryOk(c, ring, e, i)
    ensures RowsOk(c, ring, entries[id := e], origin[id := Origin(k, i)])
  {
  }

  lemma CreateKeeps(c: Config, s: Store, k: nat, iv: bytes, id: string)
    requires Assumed(c) && Inv(c, s) && k in s.storers && s.storers[k].at == AtCreate && |iv| == IV_LEN
    ensures Inv(c, CreateEntry(c, s, k, s.storers[k].input, iv, id))
  {
    var i := s.storers[k].input;
    assert StorerOk(c, s.entries, s.storers[k]);
    NewEntryOk(c, s.ring, i, iv);
    var e := NewEntry(c, s.ring, i, iv).value;
    if Violates(s, i, id, e) {
      MoveKeeps(c, s, k, i, Refused);
    } else {
      InsertKeeps(c, s, k, i, id, e);
    }
  }

  lemma InsertKeeps(c: Config, s: Store, k: nat, i: StoreInput, id: string, e: Entry)
    requires Inv(c, s) && k in s.storers && s.storers[k] == Storer(i, AtCreate)
    requires EntryOk(c, s.ring, e, i) && !Violates(s, i, id, e)
    ensures Inv(c, Insert(s, k, i, id, e))
  {
    InsertKeepsRows(c, s.ring, s.entries, s.origin, i, k, id, e);
    InsertKeepsCalls(c, s.entries, s.origin, s.storers, k, i, id, e);
    InsertKeepsFpIndex(s.entries, s.byFp, id, e);
    InsertKeepsKeyIndex(s.entries, s.byKey, id, e);
  }

  lemma DecryptOutlivesRotation(c: Config, ring: KeyRing, version: int, key: bytes, e: Entry, i: StoreInput)
    requires EntryOk(c, ring, e, i) && version !in ring.keys
    ensures EntryOk(c, KeyRing(version, ring.keys[version := key]), e, i)
  {
  }

  lemma RotateKeeps(c: Config, s: Store, version: int, key: bytes)
    requires Inv(c, s)
    ensures Inv(c, Rotate(s, version, key))
  {
    if version !in s.ring.keys {
      RotateKeepsRows(c, s.ring, version, key, s.entries, s.origin);
    }
  }

  lemma RotateKeepsRows(c: Config, ring: KeyRing, version: int, key: bytes,
                        entries: map<string, Entry>, origin: map<string, Origin>)
    requires RowsOk(c, ring, entries, origin) && version !in ring.keys
    ensures RowsOk(c, KeyRing(version, ring.keys[version := key]), entries, origin)
  {
    forall id | id in entries
      ensures EntryOk(c, KeyRing(version, ring.keys[version := key]), entries[id], origin[id].input)
    {
      DecryptOutlivesRotation(c, ring, version, key, entries[id], origin[id].input);
    }
  }

  lemma AdvanceKeeps(c: Config, s: Store, k: nat, iv: bytes, id: string)
    requires Assumed(c) && Inv(c, s) && k in s.storers
    ensures Inv(c, AdvanceStore(c, s, k, iv, id))
  {
    var i := s.storers[k].input;
    assert StorerOk(c, s.entries, s.storers[k]);
    match s.storers[k].at
    case AtKey => KeyLookupKeeps(c, s, k, iv, id);
    case AtFp => FpLookupKeeps(c, s, k, iv, id);
    case AtCreate => if |iv| == IV_LEN { CreateKeeps(c, s, k, iv, id); }
    case _ =>
  }

  lemma KeyLookupKeeps(c: Config, s: Store, k: nat, iv: bytes, id: string)
    requires Inv(c, s) && k in s.storers && s.storers[k].at == AtKey
    ensures Inv(c, AdvanceStore(c, s, k, iv, id))
  {
    var i := s.storers[k].input;
    assert StorerOk(c, s.entries, s.storers[k]);
    if i.idempotencyKey.value in s.byKey {
      var x := s.byKey[i.idempotencyKey.value];
      MoveKeeps(c, s, k, i, Stored(x, s.entries[x].panLast4, true));
    } else {
      MoveKeeps(c, s, k, i, AtFp);
    }
  }

  lemma FpLookupKeeps(c: Config, s: Store, k: nat, iv: bytes, id: string)
    requires Inv(c, s) && k in s.storers && s.storers[k].at == AtFp
    ensures Inv(c, AdvanceStore(c, s, k, iv, id))
  {
    var i := s.storers[k].input;
    assert StorerOk(c, s.entries, s.storers[k]);
    var fp := FingerprintPan(c, Luhn.Strip(i.pan));
    if fp !in s.byFp {
      MoveKeeps(c, s, k, i, AtCreate);
    } else if i.onDuplicate == Some(ErrorOnDuplicate) {
      MoveKeeps(c, s.(log := s.log + [DuplicateRejected(s.byFp[fp])]), k, i, Duplicate(s.byFp[fp]));
    } else {
      MoveKeeps(c, s, k, i, Stored(s.byFp[fp], s.entries[s.byFp[fp]].panLast4, true));
    }
  }

  /** A call that never hears of the row it created. */
  lemma LoseKeeps(c: Config, s: Store, k: nat, iv: bytes, id: string)
    requires Assumed(c) && Inv(c, s) && k in s.storers
    ensures Inv(c, LoseCreate(c, s, k, iv, id))
  {
    AdvanceKeeps(c, s, k, iv, id);
    InputsStay(c, s, k, iv, id);
    var t := AdvanceStore(c, s, k, iv, id);
    LoseKeepsCalls(c, t.entries, t.origin, t.storers, k);
  }

  lemma LoseKeepsCalls(c: Config, entries: map<string, Entry>, origin: map<string, Origin>,
                       storers: map<nat, Storer>, k: nat)
    requires CreatorsOk(origin, storers) && StorersOk(c, entries, storers) && k in storers
    ensures var t := storers[k := Storer(storers[k].input, Refused)];
            CreatorsOk(origin, t) && StorersOk(c, entries, t)
  {
  }

  lemma InputsStay(c: Config, s: Store, k: nat, iv: bytes, id: string)
    requires k in s.storers
    ensures AdvanceStore(c, s, k, iv, id).storers[k].input == s.storers[k].input
  {
    hide CreateEntry, FingerprintPan;
    CreateKeepsInput(c, s, k, s.storers[k].input, iv, id);
  }

  lemma CreateKeepsInput(c: Config, s: Store, k: nat, i: StoreInput, iv: bytes, id: string)
    ensures var t := CreateEntry(c, s, k, i, iv, id); k in t.storers && t.storers[k].input == i
  {
    hide NewEntry, Violates;
  }

  lemma ApplyKeeps(c: Config, s: Store, e: Event)
    requires Assumed(c) && Inv(c, s)
    ensures Inv(c, ApplyStore(c, s, e))
  {
    match e
    case StoreCall(k, i) => if k !in s.storers { MoveKeeps(c, s, k, i, BeginStore(i).at); }
    case StoreStep(k, iv, id) => if k in s.storers { AdvanceKeeps(c, s, k, iv, id); }
    case StoreLost(k, iv, id) => if k in s.storers { LoseKeeps(c, s, k, iv, id); }
    case RotateKey(version, key) => RotateKeeps(c, s, version, key);
    case _ =>
  }

  lemma {:induction false} RunKeeps(c: Config, s: State, events: seq<Event>)
    requires Assumed(c) && Inv(c, s.store)
    ensures Inv(c, Run(c, s, events).store)
    decreases |events|
  {
    if events != [] {
      ApplyKeeps(c, s.store, events[0]);
      RunKeeps(c, Apply(c, s, events[0]), events[1..]);
    }
  }

  lemma RunInv(c: Config, ring: KeyRing, clock: int, events: seq<Event>)
    requires Assumed(c) && ring.activeVersion in ring.keys
    ensures Inv(c, Run(c, Init(ring, clock), events).store)
  {
    RunKeeps(c, Init(ring, clock), events);
  }

  // --- what it means for callers -------------------------------------------------------

  /** No two entries of any reachable vault hold the same normalised card number. */
  lemma OneEntryPerPan(c: Config, ring: KeyRing, clock: int, events: seq<Event>, id1: string, id2: string)
    requires Assumed(c) && ring.activeVersion in ring.keys
    ensures var s := Run(c, Init(ring, clock), events).store;
            && s.origin.Keys == s.entries.Keys
            && (id1 in s.entries && id2 in s.entries ==>
                  Luhn.Strip(s.origin[id1].input.pan) == Luhn.Strip(s.origin[id2].input.pan) ==> id1 == id2)
  {
    RunInv(c, ring, clock, events);
    var s := Run(c, Init(ring, clock), events).store;
    if id1 in s.entries && id2 in s.entries {
      assert EntryOk(c, s.ring, s.entries[id1], s.origin[id1].input);
      assert EntryOk(c, s.ring, s.entries[id2], s.origin[id2].input);
    }
  }

  /** Digits survive the fingerprint's own normalisation. */
  lemma FingerprintOfDigits(c: Config, pan: string)
    requires AllDigits(Luhn.Strip(pan))
    ensures FingerprintPan(c, Luhn.Strip(pan)) == c.hmac(Luhn.Strip(pan)) == FingerprintPan(c, pan)
  {
    var d := Luhn.Strip(pan);
    KeepAll(d, Luhn.Significant);
    assert ToLower(d) == d;
  }

  /**
   If HMAC keeps card numbers apart, a call is never handed another card's entry, except
   by presenting the key that card was stored under.
   */
  lemma OnlyTheKeyCanCrossCards(c: Config, ring: KeyRing, clock: int, events: seq<Event>, n: nat)
    requires Assumed(c) && ring.activeVersion in ring.keys
    requires forall a, b | c.hmac(a) == c.hmac(b) :: a == b
    ensures var s := Run(c, Init(ring, clock), events).store;
            n in s.storers && s.storers[n].at.Stored? ==>
              var id, i := s.storers[n].at.id, s.storers[n].input;
              && id in s.origin
              && (Luhn.Strip(s.origin[id].input.pan) == Luhn.Strip(i.pan)
                  || (HasKey(i) && s.origin[id].input.idempotencyKey == i.idempotencyKey))
  {
    RunInv(c, ring, clock, events);
    var s := Run(c, Init(ring, clock), events).store;
    if n in s.storers && s.storers[n].at.Stored? {
      var id, i := s.storers[n].at.id, s.storers[n].input;
      assert StorerOk(c, s.entries, s.storers[n]);
      assert EntryOk(c, s.ring, s.entries[id], s.origin[id].input);
      FingerprintOfDigits(c, i.pan);
      FingerprintOfDigits(c, s.origin[id].input.pan);
    }
  }

  /** Where a call with a key that already has row `id` can be: refused only by its own checks. */
  predicate Resolving(o: Storer, id: string) {
    || (o.at == AtKey && Accepts(o.input))
    || (o.at == Refused && !Accepts(o.input))
    || (o.at.Stored? && o.at.id == id && o.at.deduped && Accepts(o.input))
  }

  predicate Bound(s: Store, key: string, id: string, n: nat) {
    && key in s.byKey && s.byKey[key] == id
    && (n in s.storers && s.storers[n].input.idempotencyKey == Some(key) ==> Resolving(s.storers[n], id))
  }

  lemma BoundMoves(s: Store, t: Store, k: nat, o: Storer, key: string, id: string, n: nat)
    requires Bound(s, key, id, n) && t.storers == s.storers[k := o]
    requires key in t.byKey && t.byKey[key] == id
    requires k == n && o.input.idempotencyKey == Some(key) ==> Resolving(o, id)
    ensures Bound(t, key, id, n)
  {
  }

  lemma BoundStaysCreating(c: Config, s: Store, k: nat, iv: bytes, x: string, key: string, id: string, n: nat)
    requires key != "" && Bound(s, key, id, n) && k in s.storers && s.storers[k].at == AtCreate
    ensures Bound(CreateEntry(c, s, k, s.storers[k].input, iv, x), key, id, n)
  {
    hide NewEntry;
    var i := s.storers[k].input;
    match NewEntry(c, s.ring, i, iv)
    case Err(_) => BoundMoves(s, WithStorer(s, k, i, Refused), k, Storer(i, Refused), key, id, n);
    case Ok(e) =>
      if Violates(s, i, x, e) {
        BoundMoves(s, WithStorer(s, k, i, Refused), k, Storer(i, Refused), key, id, n);
      } else {
        BoundMoves(s, Insert(s, k, i, x, e), k, Storer(i, Stored(x, e.panLast4, false)), key, id, n);
      }
  }

  lemma BoundStaysAdvancing(c: Config, s: Store, k: nat, iv: bytes, x: string, key: string, id: string, n: nat)
    requires key != "" && Bound(s, key, id, n) && k in s.storers
    ensures Bound(AdvanceStore(c, s, k, iv, x), key, id, n)
  {
    hide CreateEntry, FingerprintPan, Bound;
    if s.storers[k].at == AtCreate && |iv| == IV_LEN {
      BoundStaysCreating(c, s, k, iv, x, key, id, n);
    } else if s.storers[k].at == AtKey || s.storers[k].at == AtFp {
      BoundStaysLooking(c, s, k, iv, x, key, id, n);
    }
  }

  lemma BoundStaysLooking(c: Config, s: Store, k: nat, iv: bytes, x: string, key: string, id: string, n: nat)
    requires key != "" && Bound(s, key, id, n)
    requires k in s.storers && (s.storers[k].at == AtKey || s.storers[k].at == AtFp)
    ensures Bound(AdvanceStore(c, s, k, iv, x), key, id, n)
  {
    hide FingerprintPan;
    var t := AdvanceStore(c, s, k, iv, x);
    LookupOnlyMoves(c, s, k, iv, x);
    hide AdvanceStore;
    if k == n && s.storers[k].input.idempotencyKey == Some(key) {
      BoundLookupFinds(c, s, k, iv, x, key, id);
    }
    BoundMoves(s, t, k, t.storers[k], key, id, n);
  }

  lemma LookupOnlyMoves(c: Config, s: Store, k: nat, iv: bytes, x: string)
    requires k in s.storers && (s.storers[k].at == AtKey || s.storers[k].at == AtFp)
    ensures var t := AdvanceStore(c, s, k, iv, x);
            && t.byKey == s.byKey && t.storers == s.storers[k := t.storers[k]]
            && t.storers[k].input == s.storers[k].input
  {
    hide FingerprintPan, CreateEntry;
    if s.storers[k].at == AtKey {
      KeyLookupOnlyMoves(c, s, k, iv, x);
    } else {
      CardLookupOnlyMoves(c, s, k, iv, x);
    }
    hide AdvanceStore;
  }

  lemma KeyLookupOnlyMoves(c: Config, s: Store, k: nat, iv: bytes, x: string)
    requires k in s.storers && s.storers[k].at == AtKey
    ensures var t := AdvanceStore(c, s, k, iv, x);
            t == WithStorer(s, k, s.storers[k].input, t.storers[k].at)
  {
    hide CreateEntry;
  }

  lemma CardLookupOnlyMoves(c: Config, s: Store, k: nat, iv: bytes, x: string)
    requires k in s.storers && s.storers[k].at == AtFp
    ensures var t := AdvanceStore(c, s, k, iv, x);
            t == WithStorer(s.(log := t.log), k, s.storers[k].input, t.storers[k].at)
  {
    hide CreateEntry, FingerprintPan;
  }

  lemma BoundLookupFinds(c: Config, s: Store, k: nat, iv: bytes, x: string, key: string, id: string)
    requires Bound(s, key, id, k) && k in s.storers && s.storers[k].input.idempotencyKey == Some(key)
    requires s.storers[k].at == AtKey || s.storers[k].at == AtFp
    ensures Resolving(AdvanceStore(c, s, k, iv, x).storers[k], id)
  {
    hide FingerprintPan, Accepts;
  }

  lemma BoundStays(c: Config, s: Store, e: Event, key: string, id: string, n: nat)
    requires key != "" && Bound(s, key, id, n)
    ensures Bound(ApplyStore(c, s, e), key, id, n)
  {
    hide AdvanceStore;
    if (e.StoreStep? || e.StoreLost?) && e.k in s.storers {
      var t := AdvanceStore(c, s, e.k, e.iv, e.id);
      BoundStaysAdvancing(c, s, e.k, e.iv, e.id, key, id, n);
      if e.StoreLost? && s.storers[e.k].at == AtCreate {
        BoundMoves(t, LoseCreate(c, s, e.k, e.iv, e.id), e.k, Storer(s.storers[e.k].input, Refused), key, id, n);
      }
    }
  }

  lemma {:induction false} BoundRun(c: Config, s: State, events: seq<Event>, key: string, id: string, n: nat)
    requires key != "" && Bound(s.store, key, id, n)
    ensures Bound(Run(c, s, events).store, key, id, n)
    decreases |events|
  {
    if events != [] {
      BoundStays(c, s.store, events[0], key, id, n);
      BoundRun(c, Apply(c, s, events[0]), events[1..], key, id, n);
    }
  }

  /**
   Once a non-empty key has an entry, every call with that key made afterwards that its own
   checks accept is waiting to look the key up or has returned that entry, whatever card number
   it carries and whatever runs beside it; one they do not accept is refused.
   */
  lemma KeyIsSticky(c: Config, s: State, events: seq<Event>, key: string, n: nat)
    requires key != "" && key in s.store.byKey && n !in s.store.storers
    ensures var t := Run(c, s, events).store;
            n in t.storers && t.storers[n].input.idempotencyKey == Some(key) ==>
              var o := t.storers[n];
              if Accepts(o.input)
              then o.at == AtKey || (o.at.Stored? && o.at.id == s.store.byKey[key] && o.at.deduped)
              else o.at == Refused
  {
    BoundRun(c, s, events, key, s.store.byKey[key], n);
  }

  /** Where a finished call ended up. */
  function Answer(o: Storer): Option<string> {
    match o.at
    case Stored(id, _, _) => Some(id)
    case Duplicate(id) => Some(id)
    case _ => None
  }

  /**
   If every call with key k carries one card number, they all end at one entry, even when the
   first was resolved by fingerprint and k was never stored.
   */
  lemma OneKeyOneCardOneEntry(c: Config, ring: KeyRing, clock: int, events: seq<Event>,
                              key: string, pan: string, m: nat, n: nat)
    requires Assumed(c) && ring.activeVersion in ring.keys
    requires var s := Run(c, Init(ring, clock), events).store;
             && (forall k | k in s.storers && s.storers[k].input.idempotencyKey == Some(key) ::
                   Luhn.Strip(s.storers[k].input.pan) == pan)
             && m in s.storers && s.storers[m].input.idempotencyKey == Some(key)
             && n in s.storers && s.storers[n].input.idempotencyKey == Some(key)
    ensures var s := Run(c, Init(ring, clock), events).store;
            Answer(s.storers[m]).Some? && Answer(s.storers[n]).Some? ==> Answer(s.storers[m]) == Answer(s.storers[n])
  {
    RunInv(c, ring, clock, events);
    var s := Run(c, Init(ring, clock), events).store;
    hide Inv, Answer, FingerprintPan;
    if Answer(s.storers[m]).Some? && Answer(s.storers[n]).Some? {
      AnsweredByItsCard(c, s, key, pan, m);
      AnsweredByItsCard(c, s, key, pan, n);
    }
  }

  /** Such a call's entry is the one the fingerprint index has for the card. */
  lemma AnsweredByItsCard(c: Config, s: Store, key: string, pan: string, k: nat)
    requires Inv(c, s) && k in s.storers && s.storers[k].input.idempotencyKey == Some(key)
    requires forall l | l in s.storers && s.storers[l].input.idempotencyKey == Some(key) ::
               Luhn.Strip(s.storers[l].input.pan) == pan
    requires Answer(s.storers[k]).Some?
    ensures FingerprintPan(c, pan) in s.byFp && Answer(s.storers[k]) == Some(s.byFp[FingerprintPan(c, pan)])
  {
    hide FingerprintPan, Accepts, Decrypt;
    var id := Answer(s.storers[k]).value;
    assert StorerOk(c, s.entries, s.storers[k]);
    assert s.entries[id].panFingerprint in s.byFp && s.byFp[s.entries[id].panFingerprint] == id;
    if s.entries[id].idempotencyKey == Some(key) {
      RowOfCall(c, s, id);
    }
  }

  /** A row's fingerprint is that of the card in the call that made it, which is still on record. */
  lemma RowOfCall(c: Config, s: Store, id: string)
    requires Inv(c, s) && id in s.entries
    ensures id in s.origin && s.origin[id].call in s.storers
    ensures var i := s.origin[id].input;
            && s.storers[s.origin[id].call].input == i && s.entries[id].idempotencyKey == i.idempotencyKey
            && s.entries[id].panFingerprint == FingerprintPan(c, Luhn.Strip(i.pan))
  {
    hide FingerprintPan, Accepts, Decrypt;
    assert EntryOk(c, s.ring, s.entries[id], s.origin[id].input);
  }

  lemma GivenKeyFindsItsRow(c: Config, s: Store, n: nat, i: StoreInput, key: string, iv: bytes, id: string)
    requires Accepts(i) && i.idempotencyKey == Some(key) && key in s.byKey && key != ""
    ensures var at := StoreAlone(c, s, n, i, iv, id).storers[n].at; at.Stored? && at.id == s.byKey[key]
  {
    hide CreateEntry, FingerprintPan;
    var s1 := s.(storers := s.storers[n := BeginStore(i)]);
    assert s1.storers[n].at == AtKey;
    assert AdvanceStore(c, s1, n, iv, id).storers[n].at.Stored?;
  }

  lemma EmptyKeyGoesByCard(c: Config, s: Store, n: nat, i: StoreInput, iv: bytes, id: string)
    requires Accepts(i) && i.onDuplicate != Some(ErrorOnDuplicate) && |iv| == IV_LEN
    requires i.idempotencyKey == Some("") && "" in s.byKey
    ensures var at := StoreAlone(c, s, n, i, iv, id).storers[n].at;
            var fp := FingerprintPan(c, Luhn.Strip(i.pan));
            if fp in s.byFp then at.Stored? && at.id == s.byFp[fp] else at == Refused
  {
    hide CreateEntry, FingerprintPan;
    var s1 := s.(storers := s.storers[n := BeginStore(i)]);
    var s2 := AdvanceStore(c, s1, n, iv, id);
    assert s1.storers[n].at == AtFp;
    if FingerprintPan(c, Luhn.Strip(i.pan)) !in s.byFp {
      assert s2.storers[n].at == AtCreate;
      CreateIsRefused(c, s2, n, i, iv, id);
    } else {
      assert s2.storers[n].at.Stored?;
    }
  }

  /**
   The empty key: storeCard stores it but never looks it up.  A reuse-mode call run on its
   own with a key that has a row returns that row exactly if the key is non-empty or the card
   number is the row's own.
   */
  lemma EmptyKeyIsNoKey(c: Config, s: Store, n: nat, i: StoreInput, key: string, iv: bytes, id: string)
    requires Assumed(c) && Inv(c, s) && |iv| == IV_LEN
    requires Accepts(i) && i.onDuplicate != Some(ErrorOnDuplicate)
    requires i.idempotencyKey == Some(key) && key in s.byKey
    ensures s.byKey[key] in s.entries
    ensures var at := StoreAlone(c, s, n, i, iv, id).storers[n].at;
            at.Stored? && at.id == s.byKey[key] <==>
              key != "" || s.entries[s.byKey[key]].panFingerprint == FingerprintPan(c, Luhn.Strip(i.pan))
  {
    hide StoreAlone, FingerprintPan, EntryOk, RowsOk, StorersOk, CreatorsOk;
    if key != "" {
      GivenKeyFindsItsRow(c, s, n, i, key, iv, id);
    } else {
      EmptyKeyGoesByCard(c, s, n, i, iv, id);
    }
  }

  lemma CreateIsRefused(c: Config, s: Store, n: nat, i: StoreInput, iv: bytes, id: string)
    requires |iv| == IV_LEN && n in s.storers && s.storers[n] == Storer(i, AtCreate) && KeyTaken(s, i.idempotencyKey)
    ensures AdvanceStore(c, s, n, iv, id).storers[n].at == Refused
  {
  }
}
