/**
 What holds of the payment protocol at either granularity of updateStatus: a row that
 says it was charged was charged, for its own amount and currency, and carries the
 cryptogram of the ATC it names.
 */
module PaymentBooks {
  import opened Prelude
  import opened StateMachine
  import opened PaymentProtocol

  /** The books hold a capture of exactly this transaction under this provider id. */
  ghost predicate OnBooks(t: Txn, captures: seq<Capture>, id: string) {
    exists x :: x in captures && IsFor(t, x) && x.txnId == id
  }

  predicate IsFor(t: Txn, x: Capture) {
    x.key == ChargeKey(t) && x.amount == t.amount && x.currency == t.currency
  }

  /** Nothing has been asked of Palisade, the vault or the provider for this row. */
  predicate Idle(s: State) { s.reserves == [] && s.mints == [] && s.captures == [] }

  predicate Untouched(s: State) {
    && s.row.arqc.None? && s.row.atcUsed.None? && s.row.paymentMethodId.None? && s.row.providerTxnId.None?
    && Idle(s)
  }

  /** Some call on this row was given ATC n. */
  ghost predicate Reserved(reserves: seq<(nat, nat)>, n: nat) { exists x :: x in reserves && x.1 == n }

  /** How far along the orchestration's program a call is. */
  function Stage(pc: Pc): nat {
    match pc
    case Update(to) => UpdateStage(to)
    case Write(to) => UpdateStage(to)
    case Reserve => 3
    case Mint => 5
    case Tokenise => 6
    case Charge => 8
    case _ => 0
  }

  function UpdateStage(to: Status): nat {
    match to
    case AUTHN_STARTED => 1
    case AUTHN_COMPLETE => 2
    case ARQC_VALID => 4
    case VAULT_RETRIEVED => 7
    case STRIPE_CHARGED => 9
    case COMPLETED => 10
    case _ => 0
  }

  /** Columns the row must have by a stage. */
  ghost predicate RowHas(c: Config, s: State, stage: nat) {
    && (stage >= 5 ==> s.row.arqc.Some?)
    && (stage >= 8 ==> s.row.paymentMethodId.Some?)
    && (stage >= 10 ==> s.row.providerTxnId.Some?)
  }

  ghost predicate OrchOk(c: Config, s: State, o: Orch) {
    var stage := Stage(o.pc);
    && RowHas(c, s, stage)
    && (stage >= 4 ==> o.atc.Some?)
    && (o.atc.Some? ==> Reserved(s.reserves, o.atc.value))
    && (stage >= 7 ==> o.paymentMethodId.Some?)
    && (stage >= 9 ==> o.txnId.Some? && OnBooks(c.txn, s.captures, o.txnId.value))
    && (o.pc.Update? || o.pc.Write? ==> o.pc.to != PENDING && o.pc.to != EXPIRED)
  }

  /** Columns the row must have by its status. */
  function StatusStage(status: Status): nat {
    match status
    case ARQC_VALID => 5
    case VAULT_RETRIEVED => 8
    case STRIPE_CHARGED => 10
    case COMPLETED => 10
    case _ => 0
  }

  /** What the stored columns say is so. */
  ghost predicate Linked(c: Config, s: State) {
    var r := s.row;
    && r.arqc.Some? == r.atcUsed.Some?
    && (r.arqc.Some? ==> r.arqc.value == c.cryptogram(r.atcUsed.value) && Reserved(s.reserves, r.atcUsed.value))
    && r.providerName.Some? == r.paymentMethodId.Some?
    && (r.providerTxnId.Some? ==> OnBooks(c.txn, s.captures, r.providerTxnId.value))
  }

  predicate Stamped(c: Config, r: Row) {
    && (r.status == COMPLETED ==> r.completedAt.Some? && r.actualTier == Some(c.txn.tier))
    && (r.status == FAILED ==> r.failedAt.Some? && r.failureReason.Some?)
    && (r.status == EXPIRED ==> r.failureReason.Some?)
  }

  ghost predicate RowOk(c: Config, s: State) {
    RowHas(c, s, StatusStage(s.row.status)) && Linked(c, s) && Stamped(c, s.row)
  }

  ghost predicate BooksOk(c: Config, captures: seq<Capture>) {
    && (forall x | x in captures :: IsFor(c.txn, x))
    && (c.honoursKeys ==> |captures| <= 1)
  }

  ghost predicate ReaderOk(c: Config, s: State, rd: Reader) {
    match rd
    case AboutToReread(_) => s.row.status != PENDING
    case Returned(None, status) => status != PENDING
    case Returned(Some(now), status) => c.txn.expiresAt < now ==> status != PENDING
    case _ => true
  }

  ghost predicate Inv(c: Config, s: State) {
    && RowOk(c, s)
    && BooksOk(c, s.captures)
    && (forall k | k in s.orchs :: OrchOk(c, s, s.orchs[k]))
    && (forall r | r in s.readers :: ReaderOk(c, s, s.readers[r]))
  }

  /** Nothing another call relies on is ever taken back. */
  ghost predicate Grew(s: State, s': State) {
    && (s.row.arqc.Some? ==> s'.row.arqc.Some?)
    && (s.row.paymentMethodId.Some? ==> s'.row.paymentMethodId.Some?)
    && (s.row.providerTxnId.Some? ==> s'.row.providerTxnId.Some?)
    && s.captures <= s'.captures && s.reserves <= s'.reserves
    && (s.row.status != PENDING ==> s'.row.status != PENDING)
  }

  lemma OthersKeep(c: Config, s: State, s': State)
    requires Grew(s, s')
    ensures forall o | OrchOk(c, s, o) :: OrchOk(c, s', o)
    ensures forall rd | ReaderOk(c, s, rd) :: ReaderOk(c, s', rd)
    ensures forall id | OnBooks(c.txn, s.captures, id) :: OnBooks(c.txn, s'.captures, id)
    ensures forall n | Reserved(s.reserves, n) :: Reserved(s'.reserves, n)
  {
  }

  lemma ChargeKeepsBooks(c: Config, captures: seq<Capture>, pm: string, id: string)
    requires BooksOk(c, captures)
    ensures var (books, txnId) := Charged(c, captures, pm, id);
            BooksOk(c, books) && captures <= books && OnBooks(c.txn, books, txnId)
  {
    var (books, txnId) := Charged(c, captures, pm, id);
    var prior := Find(captures, ChargeKey(c.txn));
    if captures != [] {
      assert IsFor(c.txn, captures[0]);
    }
    if c.honoursKeys && prior.Some? {
      assert prior.value in books && IsFor(c.txn, prior.value);
    } else {
      assert books[|captures|] in books && IsFor(c.txn, books[|captures|]);
    }
  }

  /** A step that only moves one call along. */
  lemma MoveKeeps(c: Config, s: State, k: nat, o: Orch)
    requires Inv(c, s) && OrchOk(c, s, o)
    ensures Inv(c, WithOrch(s, k, o))
  {
    OthersKeep(c, s, WithOrch(s, k, o));
  }

  /** The row and the state an updateStatus call leaves before the call itself moves on. */
  function AfterWrite(c: Config, s: State, o: Orch, to: Status): State {
    WithRow(s, Patched(s.row, to, ExtraFor(c, o, to), s.clock))
  }

  lemma PatchGrows(c: Config, s: State, o: Orch, to: Status)
    requires to != PENDING
    ensures Grew(s, AfterWrite(c, s, o, to))
  {
  }

  /** The update of a call that has come as far as `to` asks leaves a row that is in order. */
  lemma PatchKeeps(c: Config, s: State, o: Orch, to: Status)
    requires RowOk(c, s) && OrchOk(c, s, o) && (o.pc == Update(to) || o.pc == Write(to))
    ensures RowOk(c, AfterWrite(c, s, o, to))
  {
    PatchLinks(c, s, o, to);
  }

  lemma CryptogramColumns(c: Config, s: State, o: Orch, to: Status)
    requires Linked(c, s) && (o.atc.Some? ==> Reserved(s.reserves, o.atc.value))
    ensures var r := AfterWrite(c, s, o, to).row;
            && r.arqc.Some? == r.atcUsed.Some?
            && (r.arqc.Some? ==> r.arqc.value == c.cryptogram(r.atcUsed.value) && Reserved(s.reserves, r.atcUsed.value))
            && r.providerName.Some? == r.paymentMethodId.Some?
  {
    hide Reserved;
  }

  lemma ProviderColumn(c: Config, s: State, o: Orch, to: Status)
    ensures AfterWrite(c, s, o, to).row.providerTxnId ==
            if to == STRIPE_CHARGED && o.txnId.Some? then o.txnId else s.row.providerTxnId
  {
  }

  lemma PatchLinks(c: Config, s: State, o: Orch, to: Status)
    requires Linked(c, s) && OrchOk(c, s, o) && (o.pc == Update(to) || o.pc == Write(to))
    ensures Linked(c, AfterWrite(c, s, o, to))
  {
    CryptogramColumns(c, s, o, to);
    ProviderColumn(c, s, o, to);
  }

  lemma MoveOnKeeps(c: Config, s: State, o: Orch, to: Status, reply: Reply)
    requires OrchOk(c, s, o) && (o.pc == Update(to) || o.pc == Write(to))
    ensures OrchOk(c, AfterWrite(c, s, o, to), Wrote(o, to, reply))
  {
  }

  lemma WriteKeeps(c: Config, s: State, k: nat, to: Status, reply: Reply)
    requires Inv(c, s) && k in s.orchs
    requires s.orchs[k].pc == Update(to) || s.orchs[k].pc == Write(to)
    ensures Inv(c, WriteStatus(c, s, k, s.orchs[k], to, reply))
  {
    var o := s.orchs[k];
    PatchGrows(c, s, o, to);
    PatchKeeps(c, s, o, to);
    MoveOnKeeps(c, s, o, to, reply);
    var t := AfterWrite(c, s, o, to);
    OthersKeep(c, s, t);
    MoveKeeps(c, t, k, Wrote(o, to, reply));
  }

  lemma CountKeeps(c: Config, s: State, k: nat)
    requires Inv(c, s)
    ensures Inv(c, s.(atc := s.atc + 1, reserves := s.reserves + [(k, s.atc + 1)]))
  {
    OthersKeep(c, s, s.(atc := s.atc + 1, reserves := s.reserves + [(k, s.atc + 1)]));
  }

  /** A reservation that went through, whatever the call then makes of it. */
  lemma ReservedKeeps(c: Config, s: State, k: nat, o: Orch)
    requires Inv(c, s) && OrchOk(c, s.(atc := s.atc + 1, reserves := s.reserves + [(k, s.atc + 1)]), o)
    ensures Inv(c, WithOrch(s.(atc := s.atc + 1, reserves := s.reserves + [(k, s.atc + 1)]), k, o))
  {
    CountKeeps(c, s, k);
    var t := s.(atc := s.atc + 1, reserves := s.reserves + [(k, s.atc + 1)]);
    hide Inv, OrchOk;
    MoveKeeps(c, t, k, o);
  }

  /** What a call that is done reserving has become. */
  lemma ReservedCall(c: Config, s: State, k: nat, o: Orch, reply: Reply)
    requires OrchOk(c, s, o) && o.pc == Reserve
    ensures var t, u := s.(atc := s.atc + 1, reserves := s.reserves + [(k, s.atc + 1)]), AdvanceReserve(s, k, o, reply);
            && k in u.orchs && OrchOk(c, if reply.Broken? then s else t, u.orchs[k])
            && u == WithOrch(if reply.Broken? then s else t, k, u.orchs[k])
  {
    var t := s.(atc := s.atc + 1, reserves := s.reserves + [(k, s.atc + 1)]);
    assert t.reserves[|s.reserves|] == (k, s.atc + 1);
    assert o.atc.Some? ==> Reserved(t.reserves, o.atc.value) by {
      assert forall x | x in s.reserves :: x in t.reserves;
    }
    assert Reserved(t.reserves, s.atc + 1);
    hide Reserved, OnBooks;
  }

  lemma ReserveKeeps(c: Config, s: State, k: nat, o: Orch, reply: Reply)
    requires Inv(c, s) && OrchOk(c, s, o) && o.pc == Reserve
    ensures Inv(c, AdvanceReserve(s, k, o, reply))
  {
    ReservedCall(c, s, k, o, reply);
    hide Inv, OrchOk, AdvanceReserve;
    if reply.Broken? {
      MoveKeeps(c, s, k, AdvanceReserve(s, k, o, reply).orchs[k]);
    } else {
      ReservedKeeps(c, s, k, AdvanceReserve(s, k, o, reply).orchs[k]);
    }
  }

  lemma ChargeKeeps(c: Config, s: State, k: nat, o: Orch, reply: Reply)
    requires Inv(c, s) && OrchOk(c, s, o) && o.pc == Charge
    ensures Inv(c, AdvanceCharge(c, s, k, o, reply))
  {
    var o' := AdvanceCharge(c, s, k, o, reply).orchs[k];
    if Landed(reply) {
      ChargeKeepsBooks(c, s.captures, o.paymentMethodId.value, reply.id);
      var t := s.(captures := Charged(c, s.captures, o.paymentMethodId.value, reply.id).0);
      BooksGrow(c, s, t.captures);
      hide Inv, Charged, BooksOk;
      MoveKeeps(c, t, k, o');
    } else {
      hide Inv, Charged, BooksOk;
      MoveKeeps(c, s, k, o');
    }
  }

  lemma BooksGrow(c: Config, s: State, books: seq<Capture>)
    requires Inv(c, s) && BooksOk(c, books) && s.captures <= books
    ensures Inv(c, s.(captures := books))
    ensures forall o | OrchOk(c, s, o) :: OrchOk(c, s.(captures := books), o)
  {
    hide BooksOk, OnBooks;
    OthersKeep(c, s, s.(captures := books));
  }

  lemma MintKeeps(c: Config, s: State, k: nat, o: Orch, reply: Reply)
    requires Inv(c, s) && OrchOk(c, s, o) && o.pc == Mint
    ensures Inv(c, AdvanceMint(s, k, o, reply))
  {
    var t := s.(mints := s.mints + [k]);
    OthersKeep(c, s, t);
    var o' := AdvanceMint(s, k, o, reply).orchs[k];
    MoveKeeps(c, s, k, o');
    MoveKeeps(c, t, k, o');
  }

  lemma UpdateKeeps(c: Config, s: State, k: nat, to: Status, reply: Reply)
    requires Inv(c, s) && k in s.orchs && s.orchs[k].pc == Update(to)
    ensures Inv(c, AdvanceUpdate(c, s, k, s.orchs[k], to, reply))
  {
    var o := s.orchs[k];
    assert OrchOk(c, s, o);
    WriteKeeps(c, s, k, to, reply);
    MoveKeeps(c, s, k, UpdateThrew(o, to, ILLEGAL));
    MoveKeeps(c, s, k, UpdateThrew(o, to, DATABASE));
    MoveKeeps(c, s, k, o.(pc := Write(to)));
  }

  lemma TokeniseKeeps(c: Config, s: State, k: nat, o: Orch, reply: Reply)
    requires Inv(c, s) && OrchOk(c, s, o) && o.pc == Tokenise
    ensures Inv(c, AdvanceTokenise(s, k, o, reply))
  {
    MoveKeeps(c, s, k, AdvanceTokenise(s, k, o, reply).orchs[k]);
  }

  lemma BeginKeeps(c: Config, s: State, k: nat, o: Orch, reply: Reply)
    requires Inv(c, s) && OrchOk(c, s, o)
    ensures Inv(c, AdvanceBegin(c, s, k, o, reply))
  {
    MoveKeeps(c, s, k, AdvanceBegin(c, s, k, o, reply).orchs[k]);
  }

  lemma WriteStepKeeps(c: Config, s: State, k: nat, to: Status, reply: Reply)
    requires Inv(c, s) && k in s.orchs && s.orchs[k].pc == Write(to)
    ensures Inv(c, AdvanceWrite(c, s, k, s.orchs[k], to, reply))
  {
    assert OrchOk(c, s, s.orchs[k]);
    WriteKeeps(c, s, k, to, reply);
    MoveKeeps(c, s, k, UpdateThrew(s.orchs[k], to, DATABASE));
  }

  lemma AdvanceKeeps(c: Config, s: State, k: nat, reply: Reply)
    requires Inv(c, s) && k in s.orchs
    ensures Inv(c, AdvanceOrch(c, s, k, reply))
  {
    var o := s.orchs[k];
    assert OrchOk(c, s, o);
    match o.pc
    case Begin => BeginKeeps(c, s, k, o, reply);
    case Update(to) => UpdateKeeps(c, s, k, to, reply);
    case Write(to) => WriteStepKeeps(c, s, k, to, reply);
    case Reserve => ReserveKeeps(c, s, k, o, reply);
    case Mint => MintKeeps(c, s, k, o, reply);
    case Tokenise => TokeniseKeeps(c, s, k, o, reply);
    case Charge => ChargeKeeps(c, s, k, o, reply);
    case Ended(_) =>
  }

  /** Either expiry write. */
  lemma ExpireKeeps(c: Config, s: State)
    requires Inv(c, s)
    ensures Inv(c, WithMatched(s, ReadExpired(s.row)))
  {
    OthersKeep(c, s, WithMatched(s, ReadExpired(s.row)));
  }

  lemma ReaderMoves(c: Config, s: State, r: nat, rd: Reader)
    requires Inv(c, s) && ReaderOk(c, s, rd)
    ensures Inv(c, s.(readers := s.readers[r := rd]))
  {
    hide OnBooks;
    OthersKeep(c, s, s.(readers := s.readers[r := rd]));
  }

  lemma ReaderKeeps(c: Config, s: State, r: nat)
    requires Inv(c, s) && r in s.readers
    ensures Inv(c, AdvanceReader(c, s, r))
  {
    assert ReaderOk(c, s, s.readers[r]);
    ExpireKeeps(c, s);
    hide Inv;
    match s.readers[r]
    case AboutToRead => ReaderMoves(c, s, r, Seen(s.row.status));
    case Seen(status) => ReaderMoves(c, s, r, AdvanceReader(c, s, r).readers[r]);
    case AboutToExpire(now) => ReaderMoves(c, WithMatched(s, ReadExpired(s.row)), r, AboutToReread(now));
    case AboutToReread(now) => ReaderMoves(c, s, r, Returned(Some(now), s.row.status));
    case Returned(_, _) =>
  }

  lemma ApplyKeeps(c: Config, s: State, e: Event)
    requires Inv(c, s)
    ensures Inv(c, Apply(c, s, e))
  {
    match e
    case Arrive(k, credential) =>
      MoveKeeps(c, s, k, Orch(Begin, credential, None, None, None, "", Threw, false));
    case Advance(k, reply) => if k in s.orchs { AdvanceKeeps(c, s, k, reply); }
    case AdvanceRead(r) => if r in s.readers { ReaderKeeps(c, s, r); }
    case Sweep(now) => ExpireKeeps(c, s);
    case _ => OthersKeep(c, s, Apply(c, s, e));
  }

  lemma {:induction false} RunKeeps(c: Config, s: State, events: seq<Event>)
    requires Inv(c, s)
    ensures Inv(c, Run(c, s, events))
    decreases |events|
  {
    if events != [] {
      ApplyKeeps(c, s, events[0]);
      RunKeeps(c, Apply(c, s, events[0]), events[1..]);
    }
  }

  lemma RunInv(c: Config, atc: nat, clock: int, events: seq<Event>)
    ensures Inv(c, Run(c, Init(atc, clock), events))
  {
    RunKeeps(c, Init(atc, clock), events);
  }

  /**
   Main result.  Over every run, with any number of orchestrations and at either
   granularity: a row that reads STRIPE_CHARGED or COMPLETED has a capture for exactly its
   amount and currency under its own key and the provider id it stores, every column the
   earlier steps fill is there, and a stored cryptogram is the one of the stored ATC.
   */
  lemma ChargedRowsWereCharged(c: Config, atc: nat, clock: int, events: seq<Event>)
    ensures var s := Run(c, Init(atc, clock), events);
            && (s.row.status == STRIPE_CHARGED || s.row.status == COMPLETED ==>
                  && s.row.arqc.Some? && s.row.atcUsed.Some? && s.row.paymentMethodId.Some?
                  && s.row.providerTxnId.Some?
                  && exists x :: x in s.captures && x.key == ChargeKey(c.txn) && x.amount == c.txn.amount
                                 && x.currency == c.txn.currency && x.txnId == s.row.providerTxnId.value)
            && s.row.arqc.Some? == s.row.atcUsed.Some?
            && (s.row.arqc.Some? ==> s.row.arqc.value == c.cryptogram(s.row.atcUsed.value))
  {
    RunKeeps(c, Init(atc, clock), events);
  }

  /** A provider that honours `charge_<id>` captures at most once, at either granularity. */
  lemma AtMostOneCapture(c: Config, atc: nat, clock: int, events: seq<Event>)
    requires c.honoursKeys
    ensures |Run(c, Init(atc, clock), events).captures| <= 1
  {
    RunKeeps(c, Init(atc, clock), events);
  }

  /** Both kinds of reservation count up, and every counter since `from` went to exactly one. */
  ghost predicate CounterOk(s: State, from: nat) {
    && (forall i, j | 0 <= i < j < |s.reserves| :: s.reserves[i].1 < s.reserves[j].1)
    && (forall i, j | 0 <= i < j < |s.others| :: s.others[i] < s.others[j])
    && (forall n | Reserved(s.reserves, n) :: n !in s.others)
    && (forall n: nat :: Reserved(s.reserves, n) || n in s.others <==> from < n <= s.atc)
  }

  lemma CountsOn(s: State, from: nat, k: nat)
    requires CounterOk(s, from) && from <= s.atc
    ensures CounterOk(s.(atc := s.atc + 1, reserves := s.reserves + [(k, s.atc + 1)]), from)
  {
    var n := s.atc + 1;
    var reserves := s.reserves + [(k, n)];
    forall m: nat
      ensures Reserved(reserves, m) <==> Reserved(s.reserves, m) || m == n
    {
      assert reserves[|s.reserves|] == (k, n);
      assert forall x :: x in reserves <==> x in s.reserves || x == (k, n);
    }
    forall i | 0 <= i < |s.reserves|
      ensures s.reserves[i].1 < n
    {
      assert s.reserves[i] in s.reserves && Reserved(s.reserves, s.reserves[i].1);
    }
  }

  lemma OthersCount(s: State, from: nat)
    requires CounterOk(s, from) && from <= s.atc
    ensures CounterOk(s.(atc := s.atc + 1, others := s.others + [s.atc + 1]), from)
  {
    hide Reserved;
    var n := s.atc + 1;
    var others := s.others + [n];
    assert forall m :: m in others <==> m in s.others || m == n;
    forall i | 0 <= i < |s.others|
      ensures s.others[i] < n
    {
      assert s.others[i] in s.others;
    }
  }

  lemma OnlyReserveCounts(c: Config, s: State, k: nat, reply: Reply)
    requires k in s.orchs && s.orchs[k].pc != Reserve
    ensures var t := AdvanceOrch(c, s, k, reply); t.atc == s.atc && t.reserves == s.reserves && t.others == s.others
  {
    hide Patched, ExtraFor, CanTransition, Charged;
  }

  lemma CounterStep(c: Config, s: State, e: Event, from: nat)
    requires CounterOk(s, from) && from <= s.atc
    ensures CounterOk(Apply(c, s, e), from) && from <= Apply(c, s, e).atc
  {
    hide CounterOk;
    var k := if e.Advance? then e.k else 0;
    CountsOn(s, from, k);
    OthersCount(s, from);
    assert CounterOk(Apply(c, s, e), from) by {
      if e.Advance? && k in s.orchs && s.orchs[k].pc != Reserve {
        OnlyReserveCounts(c, s, k, e.reply);
        SameCounter(s, AdvanceOrch(c, s, k, e.reply), from);
      } else if e.Advance? && k in s.orchs && !e.reply.Broken? {
        var t := s.(atc := s.atc + 1, reserves := s.reserves + [(k, s.atc + 1)]);
        SameCounter(t, Apply(c, s, e), from);
      } else if !e.OtherReserve? {
        SameCounter(s, Apply(c, s, e), from);
      }
    }
  }

  lemma SameCounter(s: State, t: State, from: nat)
    requires CounterOk(s, from) && t.atc == s.atc && t.reserves == s.reserves && t.others == s.others
    ensures CounterOk(t, from)
  {
  }

  lemma {:induction false} CounterRun(c: Config, s: State, events: seq<Event>, from: nat)
    requires CounterOk(s, from) && from <= s.atc
    ensures CounterOk(Run(c, s, events), from)
    decreases |events|
  {
    if events != [] {
      hide CounterOk, Apply;
      CounterStep(c, s, events[0], from);
      CounterRun(c, Apply(c, s, events[0]), events[1..], from);
    }
  }

  /**
   Over every run the counters reserved for this row strictly increase, so do those of the
   card's other transactions, and each counter after the first went to exactly one reservation
   of the one kind or the other; the one the row stores was reserved for this row.
   */
  lemma AtcsAreFresh(c: Config, atc: nat, clock: int, events: seq<Event>)
    ensures var s := Run(c, Init(atc, clock), events);
            && (forall i, j | 0 <= i < j < |s.reserves| :: s.reserves[i].1 < s.reserves[j].1)
            && (forall i, j | 0 <= i < j < |s.others| :: s.others[i] < s.others[j])
            && (forall x | x in s.reserves :: x.1 !in s.others)
            && (forall n: nat :: (exists x :: x in s.reserves && x.1 == n) || n in s.others <==> atc < n <= s.atc)
            && (s.row.atcUsed.Some? ==> exists x :: x in s.reserves && x.1 == s.row.atcUsed.value)
  {
    CounterRun(c, Init(atc, clock), events, atc);
    RunKeeps(c, Init(atc, clock), events);
    var s := Run(c, Init(atc, clock), events);
    hide Inv;
    assert s.row.atcUsed.Some? ==> Reserved(s.reserves, s.row.atcUsed.value) by { StoredWasReserved(c, s); }
    forall x | x in s.reserves
      ensures x.1 !in s.others
    {
      assert Reserved(s.reserves, x.1);
    }
    forall n: nat
      ensures (exists x :: x in s.reserves && x.1 == n) || n in s.others <==> atc < n <= s.atc
    {
      assert Reserved(s.reserves, n) || n in s.others <==> atc < n <= s.atc;
    }
  }

  lemma StoredWasReserved(c: Config, s: State)
    requires Inv(c, s)
    ensures s.row.atcUsed.Some? ==> Reserved(s.reserves, s.row.atcUsed.value)
  {
  }

  /**
   getTransactionByRlid never hands out PENDING for a row whose time was up when it read
   the clock, whatever ran between its read, its updateMany and its second read; and if it
   hands out PENDING it did read the clock.
   */
  lemma LateReadIsNeverPending(c: Config, atc: nat, clock: int, events: seq<Event>, r: nat)
    ensures var s := Run(c, Init(atc, clock), events);
            r in s.readers && s.readers[r].Returned? && s.readers[r].status == PENDING ==>
              s.readers[r].clock.Some? && s.readers[r].clock.value <= c.txn.expiresAt
  {
    RunKeeps(c, Init(atc, clock), events);
    var s := Run(c, Init(atc, clock), events);
    if r in s.readers {
      assert ReaderOk(c, s, s.readers[r]);
    }
  }

  /** Read-path expiry and the sweep commute: once the time is up, either order leaves the same row. */
  lemma ExpiryOrderIsIrrelevant(row: Row, expiresAt: int, sweepClock: int)
    requires expiresAt < sweepClock
    ensures ReadExpired(Swept(row, expiresAt, sweepClock)) == Swept(ReadExpired(row), expiresAt, sweepClock)
    ensures ReadExpired(Swept(row, expiresAt, sweepClock)) == ReadExpired(row) == Swept(row, expiresAt, sweepClock)
  {
  }

  /** A step of a call moves no other call, and once a call has entered it has entered. */
  ghost predicate OnlyMoves(s: State, k: nat, t: State) {
    && t.orchs.Keys == s.orchs.Keys && (forall l | l in s.orchs && l != k :: t.orchs[l] == s.orchs[l])
    && (k in s.orchs && s.orchs[k].entered ==> t.orchs[k].entered)
  }

  lemma OthersStand(c: Config, s: State, k: nat, reply: Reply)
    requires k in s.orchs
    ensures OnlyMoves(s, k, AdvanceOrch(c, s, k, reply))
  {
    hide OnlyMoves, AdvanceOrch;
    if s.orchs[k].pc.Update? || s.orchs[k].pc.Write? {
      UpdaterMoves(c, s, k, reply);
    } else if s.orchs[k].pc == Charge {
      ChargerMoves(c, s, k, reply);
    } else {
      WorkerMoves(c, s, k, reply);
    }
  }

  lemma UpdaterMoves(c: Config, s: State, k: nat, reply: Reply)
    requires k in s.orchs && (s.orchs[k].pc.Update? || s.orchs[k].pc.Write?)
    ensures OnlyMoves(s, k, AdvanceOrch(c, s, k, reply))
  {
    hide Patched, ExtraFor, CanTransition;
  }

  lemma WorkerMoves(c: Config, s: State, k: nat, reply: Reply)
    requires k in s.orchs && !s.orchs[k].pc.Update? && !s.orchs[k].pc.Write? && s.orchs[k].pc != Charge
    ensures OnlyMoves(s, k, AdvanceOrch(c, s, k, reply))
  {
  }

  lemma ChargerMoves(c: Config, s: State, k: nat, reply: Reply)
    requires k in s.orchs && s.orchs[k].pc == Charge
    ensures OnlyMoves(s, k, AdvanceOrch(c, s, k, reply))
  {
    hide Charged;
  }

  // --- rows that have not started, or expired before they did -----------------------------

  /** Where a call can be before any update of a vaulted card's row has taken effect. */
  predicate Early(pc: Pc) {
    || pc == Begin || pc.Ended?
    || ((pc.Update? || pc.Write?) && (pc.to == AUTHN_STARTED || pc.to == FAILED))
  }

  ghost predicate Unstarted(s: State) {
    s.row.status == PENDING || s.row.status == EXPIRED ==>
      Untouched(s) && forall k | k in s.orchs :: Early(s.orchs[k].pc)
  }

  /** A step of an early call on such a row leaves it early, or takes the row on. */
  lemma EarlyStep(c: Config, s: State, k: nat, reply: Reply)
    requires Unstarted(s) && k in s.orchs && (s.row.status == PENDING || s.row.status == EXPIRED)
    ensures Unstarted(AdvanceOrch(c, s, k, reply))
  {
    hide Patched, ExtraFor;
    assert Early(s.orchs[k].pc);
    if s.orchs[k].pc.Update? || s.orchs[k].pc.Write? {
      EarlyUpdate(c, s, k, reply);
    }
  }

  lemma EarlyUpdate(c: Config, s: State, k: nat, reply: Reply)
    requires Unstarted(s) && k in s.orchs && (s.row.status == PENDING || s.row.status == EXPIRED)
    requires s.orchs[k].pc.Update? || s.orchs[k].pc.Write?
    ensures Unstarted(AdvanceOrch(c, s, k, reply))
  {
    hide ExtraFor;
    assert Early(s.orchs[k].pc);
    var o, to := s.orchs[k], s.orchs[k].pc.to;
    assert WriteStatus(c, s, k, o, to, reply).row.status == to;
  }

  /** A row that has started never goes back: no call writes PENDING or EXPIRED. */
  lemma StartedStays(c: Config, s: State, k: nat, reply: Reply)
    requires k in s.orchs && OrchOk(c, s, s.orchs[k]) && s.row.status != PENDING && s.row.status != EXPIRED
    ensures var t := AdvanceOrch(c, s, k, reply); t.row.status != PENDING && t.row.status != EXPIRED
  {
    if s.orchs[k].pc.Update? || s.orchs[k].pc.Write? {
      hide OnBooks, RowHas, ExtraFor;
      assert WriteStatus(c, s, k, s.orchs[k], s.orchs[k].pc.to, reply).row.status == s.orchs[k].pc.to;
    } else {
      WorkLeavesTheRow(c, s, k, reply);
    }
  }

  lemma WorkLeavesTheRow(c: Config, s: State, k: nat, reply: Reply)
    requires k in s.orchs && !s.orchs[k].pc.Update? && !s.orchs[k].pc.Write?
    ensures AdvanceOrch(c, s, k, reply).row == s.row
  {
    hide Charged, Caught;
  }

  lemma UnstartedStep(c: Config, s: State, e: Event)
    requires Inv(c, s) && Unstarted(s)
    ensures Unstarted(Apply(c, s, e))
  {
    hide AdvanceOrch, OrchOk, RowOk;
    match e
    case Advance(k, reply) =>
      if k in s.orchs {
        if s.row.status == PENDING || s.row.status == EXPIRED {
          EarlyStep(c, s, k, reply);
        } else {
          StartedStays(c, s, k, reply);
        }
      }
    case _ =>
  }

  lemma {:induction false} UnstartedRun(c: Config, s: State, events: seq<Event>)
    requires Inv(c, s) && Unstarted(s)
    ensures Unstarted(Run(c, s, events))
    decreases |events|
  {
    if events != [] {
      ApplyKeeps(c, s, events[0]);
      UnstartedStep(c, s, events[0]);
      UnstartedRun(c, Apply(c, s, events[0]), events[1..]);
    }
  }

  /**
   A row that reads EXPIRED, or PENDING, never had a cryptogram, an ATC, a retrieval token or a
   charge: every run, either granularity.
   */
  lemma ExpiredRowsAreUntouched(c: Config, atc: nat, clock: int, events: seq<Event>)
    ensures var s := Run(c, Init(atc, clock), events);
            s.row.status == EXPIRED || s.row.status == PENDING ==> Untouched(s)
  {
    UnstartedRun(c, Init(atc, clock), events);
  }
}
