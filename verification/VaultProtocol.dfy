/**
 The vault as a step system: any number of concurrent storeCard and consumeRetrievalToken
 calls, mints, key rotations and purges, over the tables VaultEntry and RetrievalToken
 (services/vault/src/vault/store.service.ts, services/vault/src/vault/retrieval.service.ts,
 packages/retention/src/purge.ts).

 One event is one awaited statement completing, or taking effect without its caller hearing
 of it.  An event that is not enabled leaves the state as it is, so every sequence of events
 is a run.  The unique columns idempotencyKey and panFingerprint are kept as the indexes the
 database keeps for them.
 */
module VaultProtocol {
  import opened Prelude
  import opened Text
  import opened Bytes
  import Luhn
  import opened Envelope

  datatype Mode = ErrorOnDuplicate | ReuseDuplicate

  datatype StoreInput = StoreInput(
    pan: string, cvc: Option<string>, expiryMonth: string, expiryYear: string, cardholderName: string,
    onDuplicate: Option<Mode>, idempotencyKey: Option<string>)

  /** A VaultEntry row. */
  datatype Entry = Entry(
    panLast4: string, panBin: string, cardholderName: string, panExpiryMonth: string, panExpiryYear: string,
    encryptedPan: string, keyVersion: int, panFingerprint: string, idempotencyKey: Option<string>)

  /** A RetrievalToken row; its column `token` is the key of the table. */
  datatype Token = Token(amount: int, currency: string, entryId: string, expiresAt: int, usedAt: Option<int>)

  datatype Card = Card(
    pan: string, cvc: Option<string>, expMonth: string, expYear: string, cardholderName: string,
    last4: string, bin: string)

  datatype Config = Config(
    primitives: Primitives,
    stringify: (string, Option<string>) -> string, // JSON.stringify({ pan, cvc })
    parse: string -> (string, Option<string>),
    hmac: string -> string,                        // HMAC-SHA256 under VAULT_PAN_FINGERPRINT_KEY, in hex
    ttl: nat,                                      // RETRIEVAL_TOKEN_TTL_SECONDS
    clockWithClaim: bool)                          // a claim reads the clock in the same step

  ghost predicate Assumed(c: Config) {
    Correct(c.primitives) && forall pan, cvc :: c.parse(c.stringify(pan, cvc)) == (pan, cvc)
  }

  function FingerprintPan(c: Config, rawPan: string): string { c.hmac(ToLower(Luhn.Strip(rawPan))) }

  // --- storeCard: the checks before its first await -----------------------------

  /** /^(0[1-9]|1[0-2])$/ */
  predicate ValidMonth(m: string) {
    |m| == 2 && ((m[0] == '0' && '1' <= m[1] <= '9') || (m[0] == '1' && '0' <= m[1] <= '2'))
  }

  function ShortYear(y: string): string { if |y| == 4 then y[2..] else y }

  predicate Accepts(i: StoreInput) {
    && Luhn.Checks(Luhn.Strip(i.pan))
    && ValidMonth(i.expiryMonth)
    && |ShortYear(i.expiryYear)| == 2 && AllDigits(ShortYear(i.expiryYear))
  }

  /** if (input.idempotencyKey): an absent key and an empty one are both skipped. */
  predicate HasKey(i: StoreInput) { i.idempotencyKey.Some? && i.idempotencyKey.value != "" }

  datatype StorePc =
    | AtKey    // about to look the idempotency key up
    | AtFp     // about to look the fingerprint up
    | AtCreate // about to encrypt and create the row
    | Stored(id: string, panLast4: string, deduped: bool)
    | Duplicate(existing: string)
    | Refused  // threw: a failed check, a unique column violated by create, or its answer lost

  datatype Storer = Storer(input: StoreInput, at: StorePc)

  datatype StoreEvent = Create(id: string) | DuplicateRejected(id: string)

  datatype Store = Store(
    entries: map<string, Entry>, byKey: map<string, string>, byFp: map<string, string>,
    ring: KeyRing, log: seq<StoreEvent>,
    storers: map<nat, Storer>,
    origin: map<string, Origin>) // history: what created each row

  datatype Origin = Origin(call: nat, input: StoreInput)

  function BeginStore(i: StoreInput): Storer {
    Storer(i, if !Accepts(i) then Refused else if HasKey(i) then AtKey else AtFp)
  }

  /** The row create would write; the IV is the random one encrypt drew. */
  function NewEntry(c: Config, ring: KeyRing, i: StoreInput, iv: bytes): Result<Entry, Error> {
    var pan := Luhn.Strip(i.pan);
    var enc := Encrypt(c.primitives, c.stringify(pan, i.cvc), ring, iv);
    if enc.Err? then Err(enc.error)
    else Ok(Entry(
        pan[if |pan| < 4 then 0 else |pan| - 4..], pan[..if |pan| < 6 then |pan| else 6],
        i.cardholderName, i.expiryMonth, ShortYear(i.expiryYear),
        enc.value.ciphertext, enc.value.keyVersion, FingerprintPan(c, pan), i.idempotencyKey))
  }

  function WithStorer(s: Store, k: nat, i: StoreInput, at: StorePc): Store {
    s.(storers := s.storers[k := Storer(i, at)])
  }

  predicate KeyTaken(s: Store, key: Option<string>) { key.Some? && key.value in s.byKey }

  function Insert(s: Store, k: nat, i: StoreInput, id: string, e: Entry): Store {
    var t := s.(entries := s.entries[id := e],
                byFp := s.byFp[e.panFingerprint := id],
                byKey := if i.idempotencyKey.Some? then s.byKey[i.idempotencyKey.value := id] else s.byKey,
                log := s.log + [Create(id)],
                origin := s.origin[id := Origin(k, i)]);
    WithStorer(t, k, i, Stored(id, e.panLast4, false))
  }

  predicate Violates(s: Store, i: StoreInput, id: string, e: Entry) {
    id in s.entries || e.panFingerprint in s.byFp || KeyTaken(s, i.idempotencyKey)
  }

  function CreateEntry(c: Config, s: Store, k: nat, i: StoreInput, iv: bytes, id: string): Store {
    match NewEntry(c, s.ring, i, iv)
    case Err(_) => WithStorer(s, k, i, Refused)
    case Ok(e) => if Violates(s, i, id, e) then WithStorer(s, k, i, Refused) else Insert(s, k, i, id, e)
  }

  /** The result of finding a row, by key or by fingerprint. */
  function Found(s: Store, k: nat, i: StoreInput, id: string): Store {
    WithStorer(s, k, i, Stored(id, if id in s.entries then s.entries[id].panLast4 else "", true))
  }

  function AdvanceStore(c: Config, s: Store, k: nat, iv: bytes, id: string): (t: Store)
    requires k in s.storers
    ensures t.storers.Keys == s.storers.Keys
  {
    var i := s.storers[k].input;
    match s.storers[k].at
    case AtKey =>
      if i.idempotencyKey.Some? && i.idempotencyKey.value in s.byKey
      then Found(s, k, i, s.byKey[i.idempotencyKey.value])
      else WithStorer(s, k, i, AtFp)
    case AtFp =>
      var fp := FingerprintPan(c, Luhn.Strip(i.pan));
      if fp !in s.byFp then WithStorer(s, k, i, AtCreate)
      else if i.onDuplicate == Some(ErrorOnDuplicate)
      then WithStorer(s.(log := s.log + [DuplicateRejected(s.byFp[fp])]), k, i, Duplicate(s.byFp[fp]))
      else Found(s, k, i, s.byFp[fp])
    case AtCreate => if |iv| == IV_LEN then CreateEntry(c, s, k, i, iv, id) else s
    case _ => s
  }

  /**
   The create takes effect, or is refused, and its answer is lost: either way the call throws,
   and emits no event.
   */
  function LoseCreate(c: Config, s: Store, k: nat, iv: bytes, id: string): Store
    requires k in s.storers
  {
    WithStorer(AdvanceStore(c, s, k, iv, id).(log := s.log), k, s.storers[k].input, Refused)
  }

  /** A whole storeCard call with nobody else awake: its checks and its three awaits. */
  function StoreAlone(c: Config, s: Store, k: nat, i: StoreInput, iv: bytes, id: string): (t: Store)
    ensures k in t.storers
  {
    var s1 := s.(storers := s.storers[k := BeginStore(i)]);
    var s2 := AdvanceStore(c, s1, k, iv, id);
    var s3 := AdvanceStore(c, s2, k, iv, id);
    AdvanceStore(c, s3, k, iv, id)
  }

  /** A new key version is deployed and becomes the active one; the old ones stay. */
  function Rotate(s: Store, version: int, key: bytes): Store {
    if version in s.ring.keys then s
    else s.(ring := KeyRing(version, s.ring.keys[version := key]))
  }

  // --- retrieval tokens -----------------------------------------------------------

  datatype ConsumeError = NotFound | AlreadyUsed | TokenExpired | Mismatch | RowGone | Undecryptable | AnswerLost

  datatype ConsumePc =
    | AtClaim             // about to run the updateMany
    | AtMiss              // it matched nothing; about to look why
    | AtRead              // it matched; about to read the row and its entry
    | Got(entryId: string, card: Card)
    | Failed(error: ConsumeError)

  datatype Consumer = Consumer(token: string, amount: int, currency: string, now: int, at: ConsumePc)

  /** TOKEN_CONSUMED events. */
  datatype Consumed = Consumed(k: nat, token: string, success: bool)

  datatype Claim = Claim(k: nat, token: string, now: int)

  datatype Tokens = Tokens(
    rows: map<string, Token>, consumers: map<nat, Consumer>, log: seq<Consumed>,
    minted: map<string, Token>, // history: every token ever minted, as minted
    claims: seq<Claim>)         // history: every updateMany that matched

  function Mint(c: Config, entries: map<string, Entry>, t: Tokens, clock: int,
                entryId: string, amount: int, currency: string, token: string): Tokens
  {
    // nanoid never repeats a token
    if entryId !in entries || token in t.minted then t
    else
      var row := Token(amount, currency, entryId, clock + c.ttl, None);
      t.(rows := t.rows[token := row], minted := t.minted[token := row])
  }

  function BeginConsume(t: Tokens, clock: int, k: nat, token: string, amount: int, currency: string): Tokens {
    if k in t.consumers then t
    else t.(consumers := t.consumers[k := Consumer(token, amount, currency, clock, AtClaim)])
  }

  predicate Claimable(t: Tokens, token: string, now: int) {
    token in t.rows && t.rows[token].usedAt.None? && t.rows[token].expiresAt > now
  }

  function WithConsumer(t: Tokens, k: nat, o: Consumer): Tokens { t.(consumers := t.consumers[k := o]) }

  function ClaimToken(c: Config, t: Tokens, clock: int, k: nat, o: Consumer): Tokens {
    var now := if c.clockWithClaim then clock else o.now;
    if Claimable(t, o.token, now) then
      var u := t.(rows := t.rows[o.token := t.rows[o.token].(usedAt := Some(now))],
                  claims := t.claims + [Claim(k, o.token, now)]);
      WithConsumer(u, k, o.(now := now, at := AtRead))
    else WithConsumer(t, k, o.(at := AtMiss))
  }

  function ExplainMiss(t: Tokens, k: nat, o: Consumer): Tokens {
    var why := if o.token !in t.rows then NotFound
               else if t.rows[o.token].usedAt.Some? then AlreadyUsed else TokenExpired;
    WithConsumer(t.(log := t.log + [Consumed(k, o.token, false)]), k, o.(at := Failed(why)))
  }

  function CardOf(c: Config, e: Entry, plaintext: string): Card {
    var (pan, cvc) := c.parse(plaintext);
    Card(pan, cvc, e.panExpiryMonth, e.panExpiryYear, e.cardholderName, e.panLast4, e.panBin)
  }

  function ReadAndDecrypt(c: Config, s: Store, t: Tokens, k: nat, o: Consumer): Tokens {
    if o.token !in t.rows || t.rows[o.token].entryId !in s.entries
    then WithConsumer(t, k, o.(at := Failed(RowGone)))
    else
      var row := t.rows[o.token];
      var e := s.entries[row.entryId];
      if row.amount != o.amount || row.currency != o.currency
      then WithConsumer(t.(log := t.log + [Consumed(k, o.token, false)]), k, o.(at := Failed(Mismatch)))
      else
        match Decrypt(c.primitives, Payload(e.encryptedPan, e.keyVersion), s.ring)
        case Err(_) => WithConsumer(t, k, o.(at := Failed(Undecryptable)))
        case Ok(plaintext) =>
          WithConsumer(t.(log := t.log + [Consumed(k, o.token, true)]), k,
                       o.(at := Got(row.entryId, CardOf(c, e, plaintext))))
  }

  function AdvanceConsume(c: Config, s: Store, t: Tokens, clock: int, k: nat): Tokens
    requires k in t.consumers
  {
    var o := t.consumers[k];
    match o.at
    case AtClaim => ClaimToken(c, t, clock, k, o)
    case AtMiss => ExplainMiss(t, k, o)
    case AtRead => ReadAndDecrypt(c, s, t, k, o)
    case _ => t
  }

  /** The claim matches, or does not, and its answer is lost. */
  function LoseClaim(c: Config, t: Tokens, clock: int, k: nat): Tokens
    requires k in t.consumers
  {
    WithConsumer(ClaimToken(c, t, clock, k, t.consumers[k]), k, t.consumers[k].(at := Failed(AnswerLost)))
  }

  /** purgeExpiredRetrievalTokens(now) */
  function Purged(t: Tokens, now: int): Tokens {
    t.(rows := map token | token in t.rows && t.rows[token].expiresAt >= now :: t.rows[token])
  }

  // --- the system ------------------------------------------------------------------

  datatype State = State(store: Store, tokens: Tokens, clock: int)

  datatype Event =
    | StoreCall(k: nat, input: StoreInput)
    | StoreStep(k: nat, iv: bytes, id: string)
    | StoreLost(k: nat, iv: bytes, id: string) // as a StoreStep that creates, but the call never hears of it
    | RotateKey(version: int, key: bytes)
    | MintToken(entryId: string, amount: int, currency: string, token: string)
    | ConsumeCall(k: nat, token: string, amount: int, currency: string)
    | ConsumeStep(k: nat)
    | ConsumeLost(k: nat) // as a ConsumeStep that claims, but the call never hears of it
    | PurgeTokens(now: int)
    | Tick(d: nat)

  function ApplyStore(c: Config, s: Store, e: Event): Store {
    match e
    case StoreCall(k, i) => if k in s.storers then s else s.(storers := s.storers[k := BeginStore(i)])
    case StoreStep(k, iv, id) => if k in s.storers then AdvanceStore(c, s, k, iv, id) else s
    case StoreLost(k, iv, id) =>
      if k in s.storers && s.storers[k].at == AtCreate then LoseCreate(c, s, k, iv, id) else s
    case RotateKey(version, key) => Rotate(s, version, key)
    case _ => s
  }

  function ApplyTokens(c: Config, s: State, e: Event): Tokens {
    match e
    case MintToken(entryId, amount, currency, token) =>
      Mint(c, s.store.entries, s.tokens, s.clock, entryId, amount, currency, token)
    case ConsumeCall(k, token, amount, currency) => BeginConsume(s.tokens, s.clock, k, token, amount, currency)
    case ConsumeStep(k) =>
      if k in s.tokens.consumers then AdvanceConsume(c, s.store, s.tokens, s.clock, k) else s.tokens
    case ConsumeLost(k) =>
      if k in s.tokens.consumers && s.tokens.consumers[k].at == AtClaim
      then LoseClaim(c, s.tokens, s.clock, k) else s.tokens
    case PurgeTokens(now) => if now <= s.clock then Purged(s.tokens, now) else s.tokens
    case _ => s.tokens
  }

  function Apply(c: Config, s: State, e: Event): State {
    State(ApplyStore(c, s.store, e), ApplyTokens(c, s, e), if e.Tick? then s.clock + e.d else s.clock)
  }

  function Run(c: Config, s: State, events: seq<Event>): State
    decreases |events|
  {
    if events == [] then s
    else Run(c, Apply(c, s, events[0]), events[1..])
  }

  function Init(ring: KeyRing, clock: int): State {
    State(Store(map[], map[], map[], ring, [], map[], map[]), Tokens(map[], map[], [], map[], []), clock)
  }

  lemma {:induction false} RunAppend(c: Config, s: State, a: seq<Event>, b: seq<Event>)
    ensures Run(c, s, a + b) == Run(c, Run(c, s, a), b)
    decreases |a|
  {
    if a == [] {
      assert a + b == b;
    } else {
      assert (a + b)[0] == a[0] && (a + b)[1..] == a[1..] + b;
      RunAppend(c, Apply(c, s, a[0]), a[1..], b);
    }
  }

  lemma StoreAloneIsARun(c: Config, s: State, k: nat, i: StoreInput, iv: bytes, id: string)
    requires k !in s.store.storers
    ensures var step := StoreStep(k, iv, id);
            Run(c, s, [StoreCall(k, i), step, step, step]) == s.(store := StoreAlone(c, s.store, k, i, iv, id))
  {
    var step := StoreStep(k, iv, id);
    RunAppend(c, s, [StoreCall(k, i), step, step], [step]);
    RunAppend(c, s, [StoreCall(k, i), step], [step]);
    RunAppend(c, s, [StoreCall(k, i)], [step]);
    RunOne(c, s, StoreCall(k, i));
    forall t: State
      ensures Run(c, t, [step]) == Apply(c, t, step)
    {
      RunOne(c, t, step);
    }
    assert [StoreCall(k, i)] + [step] + [step] + [step] == [StoreCall(k, i), step, step, step];
    assert [StoreCall(k, i)] + [step] + [step] == [StoreCall(k, i), step, step];
    assert [StoreCall(k, i)] + [step] == [StoreCall(k, i), step];
  }

  lemma RunOne(c: Config, s: State, e: Event)
    ensures Run(c, s, [e]) == Apply(c, s, e)
  {
    assert [e][1..] == [];
  }
}
