/**
 The payment protocol around one transaction row: any number of concurrent
 orchestratePostAuth calls, read-path expirers and retention sweeps, as a step system
 (services/pay/src/orchestration/post-auth.ts, services/pay/src/transactions/transaction.service.ts,
 packages/retention/src/purge.ts).

 A run is a sequence of events.  One event is one awaited operation completing, or the
 environment moving; an event that is not enabled leaves the state as it is, so every
 sequence of events is a run and "for every run" is "for every sequence".

 Config.atomic chooses the granularity of updateStatus.  The code reads the row, checks
 the transition and then updates, in two database round trips (atomic == false); the
 other reading makes the three one step.
 */
module PaymentProtocol {
  import opened Prelude
  import opened StateMachine

  /** The columns of Transaction that never change after createTransaction. */
  datatype Txn = Txn(
    id: string, rlid: string, cardId: string, amount: int, currency: string, merchantRef: string,
    tier: string, panBin: Option<string>, vaultEntryId: Option<string>, expiresAt: int)

  /** The columns that do change. */
  datatype Row = Row(
    status: Status,
    usedCredentialId: Option<string>, arqc: Option<string>, atcUsed: Option<nat>,
    providerName: Option<string>, paymentMethodId: Option<string>, providerTxnId: Option<string>,
    actualTier: Option<string>, completedAt: Option<int>, failedAt: Option<int>,
    failureReason: Option<string>)

  const NewRow := Row(PENDING, None, None, None, None, None, None, None, None, None, None)

  /** The `extra` argument of updateStatus, one constructor per call site. */
  datatype Extra =
    | NoExtra
    | Credential(credentialId: string)
    | Cryptogram(arqc: string, atc: nat)
    | Method(providerName: string, paymentMethodId: string)
    | ProviderTxn(providerTxnId: string)
    | ActualTier(tier: string)
    | Reason(reason: string)

  const TTL_ELAPSED := "transaction_ttl_elapsed"

  /** The row written by updateStatus's prisma.transaction.update. */
  function Patched(row: Row, to: Status, extra: Extra, now: int): Row {
    var r := match extra
      case NoExtra => row
      case Credential(id) => row.(usedCredentialId := Some(id))
      case Cryptogram(a, n) => row.(arqc := Some(a), atcUsed := Some(n))
      case Method(name, pm) => row.(providerName := Some(name), paymentMethodId := Some(pm))
      case ProviderTxn(id) => row.(providerTxnId := Some(id))
      case ActualTier(t) => row.(actualTier := Some(t))
      case Reason(why) => row.(failureReason := Some(why));
    var r := r.(status := to);
    if to == COMPLETED then r.(completedAt := Some(now))
    else if to == FAILED then r.(failedAt := Some(now))
    else r
  }

  /** The row both expiry writes leave: neither stamps a time, both give the same reason. */
  function Expired(row: Row): Row {
    row.(status := EXPIRED, failureReason := Some(TTL_ELAPSED))
  }

  /** expirePendingTransactions, for this row. */
  function Swept(row: Row, expiresAt: int, now: int): Row {
    if row.status == PENDING && expiresAt < now then Expired(row) else row
  }

  /** The updateMany on the read path, which looks at the status only. */
  function ReadExpired(row: Row): Row {
    if row.status == PENDING then Expired(row) else row
  }

  /** A succeeded charge in the provider's books. */
  datatype Capture = Capture(key: string, amount: int, currency: string, paymentMethodId: string, txnId: string)

  datatype Config = Config(
    txn: Txn,
    cryptogram: nat -> string, // what generateArqc prints for this row at a given ATC
    providerName: string,
    atomic: bool,              // updateStatus is one step
    honoursKeys: bool)         // the provider captures once per idempotency key

  function ChargeKey(t: Txn): string { "charge_" + t.id }

  predicate Given(s: Option<string>) { s.Some? && s.value != "" }

  predicate Vaulted(t: Txn) { Given(t.vaultEntryId) && Given(t.panBin) }

  datatype Outcome = ReturnedCompleted | ReturnedFailed | Threw

  /** Where an orchestration is: about to perform the operation the constructor names. */
  datatype Pc =
    | Begin
    | Update(to: Status) // updateStatus(to): its read and assertTransition
    | Write(to: Status)  // updateStatus(to): its update, the check having passed
    | Reserve | Mint | Tokenise | Charge
    | Ended(outcome: Outcome)

  datatype Orch = Orch(
    pc: Pc, credential: string, atc: Option<nat>, paymentMethodId: Option<string>,
    txnId: Option<string>, reason: string, verdict: Outcome,
    entered: bool) // history: its AUTHN_STARTED update took effect

  /** How an awaited operation completes. */
  datatype Reply =
    | Good(id: string) // succeeds, with the id the other side assigned
    | Refused          // the other side answers no
    | Broken           // throws, having had no effect
    | Lost(id: string) // takes effect, and then the answer is lost and it throws

  /** The operation took effect, whatever its caller was told. */
  predicate Landed(reply: Reply) { reply.Good? || reply.Lost? }

  datatype Reader =
    | AboutToRead
    | Seen(status: Status)
    | AboutToExpire(now: int)
    | AboutToReread(now: int)
    | Returned(clock: Option<int>, status: Status) // clock: the clock it read, if it read one

  datatype State = State(
    row: Row, clock: int,
    atc: nat,                    // the card's counter
    reserves: seq<(nat, nat)>,   // history: who reserved which ATC
    others: seq<nat>,            // history: the ATCs other transactions of the card took
    mints: seq<nat>,             // history: who minted a retrieval token
    captures: seq<Capture>,      // the provider's books
    history: seq<Status>,        // history: every status the row was written
    orchs: map<nat, Orch>, readers: map<nat, Reader>)

  datatype Event =
    | Arrive(k: nat, credential: string) // a /verify request reaches orchestratePostAuth
    | Advance(k: nat, reply: Reply)      // the next operation of call k completes
    | OpenRead(r: nat)                   // a getTransactionByRlid call starts
    | AdvanceRead(r: nat)
    | Sweep(now: int)                    // expirePendingTransactions(now)
    | OtherReserve                       // another transaction of the card takes an ATC
    | Tick(d: nat)

  function Init(atc: nat, clock: int): State {
    State(NewRow, clock, atc, [], [], [], [], [PENDING], map[], map[])
  }

  function WithRow(s: State, row: Row): State {
    s.(row := row, history := s.history + [row.status])
  }

  /** An updateMany that matched the row exactly if it changed it. */
  function WithMatched(s: State, row: Row): State {
    if row == s.row then s else WithRow(s, row)
  }

  function ExtraFor(c: Config, o: Orch, to: Status): Extra {
    match to
    case AUTHN_STARTED => Credential(o.credential)
    case ARQC_VALID => if o.atc.Some? then Cryptogram(c.cryptogram(o.atc.value), o.atc.value) else NoExtra
    case VAULT_RETRIEVED => if o.paymentMethodId.Some? then Method(c.providerName, o.paymentMethodId.value) else NoExtra
    case STRIPE_CHARGED => if o.txnId.Some? then ProviderTxn(o.txnId.value) else NoExtra
    case COMPLETED => ActualTier(c.txn.tier)
    case FAILED => Reason(o.reason)
    case _ => NoExtra
  }

  function Caught(o: Orch, reason: string): Orch {
    o.(pc := Update(FAILED), reason := reason, verdict := Threw)
  }

  /** What updateStatus throws: assertTransition's error, or the database's. */
  const ILLEGAL := "illegal_transition"
  const DATABASE := "database_unavailable"

  /** updateStatus(to) threw `why`: the first two calls are outside the try, and fail() swallows. */
  function UpdateThrew(o: Orch, to: Status, why: string): Orch {
    match to
    case AUTHN_STARTED => o.(pc := Ended(Threw))
    case AUTHN_COMPLETE => o.(pc := Ended(Threw))
    case FAILED => o.(pc := Ended(o.verdict))
    case _ => Caught(o, why)
  }

  /** updateStatus(to) returned. */
  function UpdateDone(o: Orch, to: Status): Orch {
    match to
    case AUTHN_STARTED => o.(pc := Update(AUTHN_COMPLETE), entered := true)
    case AUTHN_COMPLETE => o.(pc := Reserve)
    case ARQC_VALID => o.(pc := Mint)
    case VAULT_RETRIEVED => o.(pc := Charge)
    case STRIPE_CHARGED => o.(pc := Update(COMPLETED))
    case COMPLETED => o.(pc := Ended(ReturnedCompleted))
    case _ => o.(pc := Ended(o.verdict))
  }

  function WithOrch(s: State, k: nat, o: Orch): State { s.(orchs := s.orchs[k := o]) }

  /** After an update that took effect: updateStatus(to) returned, or its answer was lost. */
  function Wrote(o: Orch, to: Status, reply: Reply): Orch {
    if reply.Good? then UpdateDone(o, to)
    else UpdateThrew(o, to, DATABASE).(entered := o.entered || to == AUTHN_STARTED)
  }

  function WriteStatus(c: Config, s: State, k: nat, o: Orch, to: Status, reply: Reply): State {
    WithOrch(WithRow(s, Patched(s.row, to, ExtraFor(c, o, to), s.clock)), k, Wrote(o, to, reply))
  }

  /** The first capture in the books made under a key. */
  function Find(captures: seq<Capture>, key: string): (r: Option<Capture>)
    ensures r.Some? ==> r.value in captures && r.value.key == key
    ensures r.None? ==> forall x | x in captures :: x.key != key
  {
    if captures == [] then None
    else if captures[0].key == key then Some(captures[0])
    else Find(captures[1..], key)
  }

  /** What the provider's books hold after a charge that takes effect, and the id it reports. */
  function Charged(c: Config, captures: seq<Capture>, pm: string, id: string): (seq<Capture>, string) {
    var prior := Find(captures, ChargeKey(c.txn));
    if c.honoursKeys && prior.Some? then (captures, prior.value.txnId)
    else (captures + [Capture(ChargeKey(c.txn), c.txn.amount, c.txn.currency, pm, id)], id)
  }

  /** The call's first read of the row, outside the try: if it throws, the call has thrown. */
  function AdvanceBegin(c: Config, s: State, k: nat, o: Orch, reply: Reply): State {
    WithOrch(s, k,
             if !reply.Good? then o.(pc := Ended(Threw))
             else if Vaulted(c.txn) then o.(pc := Update(AUTHN_STARTED))
             else Caught(o, "card_not_vaulted"))
  }

  function AdvanceUpdate(c: Config, s: State, k: nat, o: Orch, to: Status, reply: Reply): State {
    if !c.atomic && !reply.Good? then WithOrch(s, k, UpdateThrew(o, to, DATABASE))
    else if !CanTransition(s.row.status, to) then WithOrch(s, k, UpdateThrew(o, to, ILLEGAL))
    else if !c.atomic then WithOrch(s, k, o.(pc := Write(to)))
    else if Landed(reply) then WriteStatus(c, s, k, o, to, reply)
    else WithOrch(s, k, UpdateThrew(o, to, DATABASE))
  }

  function AdvanceWrite(c: Config, s: State, k: nat, o: Orch, to: Status, reply: Reply): State {
    if Landed(reply) then WriteStatus(c, s, k, o, to, reply) else WithOrch(s, k, UpdateThrew(o, to, DATABASE))
  }

  function AdvanceReserve(s: State, k: nat, o: Orch, reply: Reply): State {
    if reply.Broken? then WithOrch(s, k, Caught(o, "palisade_unavailable")) else
    var n := s.atc + 1;
    var s := s.(atc := n, reserves := s.reserves + [(k, n)]);
    match reply
    case Good(_) => WithOrch(s, k, o.(pc := Update(ARQC_VALID), atc := Some(n)))
    case Refused => WithOrch(s, k, Caught(o, "arqc_self_validation_failed"))
    case _ => WithOrch(s, k, Caught(o, "palisade_unavailable"))
  }

  function AdvanceMint(s: State, k: nat, o: Orch, reply: Reply): State {
    match reply
    case Good(_) => WithOrch(s.(mints := s.mints + [k]), k, o.(pc := Tokenise))
    case Lost(_) => WithOrch(s.(mints := s.mints + [k]), k, Caught(o, "vault_unavailable"))
    case _ => WithOrch(s, k, Caught(o, "vault_unavailable"))
  }

  function AdvanceTokenise(s: State, k: nat, o: Orch, reply: Reply): State {
    match reply
    case Good(id) => WithOrch(s, k, o.(pc := Update(VAULT_RETRIEVED), paymentMethodId := Some(id)))
    case _ => WithOrch(s, k, Caught(o, "provider_unavailable"))
  }

  function AdvanceCharge(c: Config, s: State, k: nat, o: Orch, reply: Reply): State
    requires o.paymentMethodId.Some?
  {
    match reply
    case Good(id) =>
      var (books, txnId) := Charged(c, s.captures, o.paymentMethodId.value, id);
      WithOrch(s.(captures := books), k, o.(pc := Update(STRIPE_CHARGED), txnId := Some(txnId)))
    case Refused =>
      WithOrch(s, k, o.(pc := Update(FAILED), reason := "provider_charge_failed", verdict := ReturnedFailed))
    case Broken => WithOrch(s, k, Caught(o, "provider_unavailable"))
    case Lost(id) =>
      var (books, _) := Charged(c, s.captures, o.paymentMethodId.value, id);
      WithOrch(s.(captures := books), k, Caught(o, "provider_unavailable"))
  }

  function AdvanceOrch(c: Config, s: State, k: nat, reply: Reply): State
    requires k in s.orchs
  {
    var o := s.orchs[k];
    match o.pc
    case Begin => AdvanceBegin(c, s, k, o, reply)
    case Update(to) => AdvanceUpdate(c, s, k, o, to, reply)
    case Write(to) => AdvanceWrite(c, s, k, o, to, reply)
    case Reserve => AdvanceReserve(s, k, o, reply)
    case Mint => AdvanceMint(s, k, o, reply)
    case Tokenise => AdvanceTokenise(s, k, o, reply)
    case Charge => if o.paymentMethodId.Some? then AdvanceCharge(c, s, k, o, reply) else s
    case Ended(_) => s
  }

  /** getTransactionByRlid: read, compare with the clock, expire, read again. */
  function AdvanceReader(c: Config, s: State, r: nat): State
    requires r in s.readers
  {
    match s.readers[r]
    case AboutToRead => s.(readers := s.readers[r := Seen(s.row.status)])
    case Seen(status) =>
      s.(readers := s.readers[r :=
           if status != PENDING then Returned(None, status)
           else if c.txn.expiresAt < s.clock then AboutToExpire(s.clock)
           else Returned(Some(s.clock), status)])
    case AboutToExpire(now) => WithMatched(s, ReadExpired(s.row)).(readers := s.readers[r := AboutToReread(now)])
    case AboutToReread(now) => s.(readers := s.readers[r := Returned(Some(now), s.row.status)])
    case Returned(_, _) => s
  }

  function Apply(c: Config, s: State, e: Event): State {
    match e
    case Arrive(k, credential) =>
      if k in s.orchs then s
      else WithOrch(s, k, Orch(Begin, credential, None, None, None, "", Threw, false))
    case Advance(k, reply) => if k in s.orchs then AdvanceOrch(c, s, k, reply) else s
    case OpenRead(r) => if r in s.readers then s else s.(readers := s.readers[r := AboutToRead])
    case AdvanceRead(r) => if r in s.readers then AdvanceReader(c, s, r) else s
    case Sweep(now) => if now <= s.clock then WithMatched(s, Swept(s.row, c.txn.expiresAt, now)) else s
    case OtherReserve => s.(atc := s.atc + 1, others := s.others + [s.atc + 1])
    case Tick(d) => s.(clock := s.clock + d)
  }

  function Run(c: Config, s: State, events: seq<Event>): State
    decreases |events|
  {
    if events == [] then s
    else Run(c, Apply(c, s, events[0]), events[1..])
  }

  lemma {:induction false} RunAppend(c: Config, s: State, a: seq<Event>, b: seq<Event>)
    ensures Run(c, s, a + b) == Run(c, Run(c, s, a), b)
    decreases |a|
  {
    if a == [] {
      assert a + b == b;
    } else {
      assert (a + b)[0] == a[0] && (a + b)[1..] == a[1..] + b;
      RunAppend(c, Apply(c, s, a[0]), a[1..], b);
    }
  }
}
