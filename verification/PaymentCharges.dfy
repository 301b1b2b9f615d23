/**
 What a row's final status says about the provider's books: a lone call that succeeds, and
 when FAILED means that nothing was charged (services/pay/src/orchestration/post-auth.ts:108-150).
 */
module PaymentCharges {
  import opened Prelude
  import opened StateMachine
  import opened PaymentProtocol
  import PaymentBooks
  import opened PaymentGuards
  import PaymentWinner
  import opened PaymentRaces

  // --- a lone call, at either granularity ---------------------------------------------------

  /** One updateStatus of a lone call that succeeds: one event, or a read and a write. */
  lemma UpdateAlone(c: Config, s0: State, events: seq<Event>, s: State, to: Status)
    returns (events': seq<Event>, s': State)
    requires Run(c, s0, events) == s && 0 in s.orchs && s.orchs[0].pc == Update(to)
    requires CanTransition(s.row.status, to)
    ensures Run(c, s0, events') == s'
    ensures var row := Patched(s.row, to, ExtraFor(c, s.orchs[0], to), s.clock);
            s' == WithOrch(WithRow(s, row), 0, UpdateDone(s.orchs[0], to))
  {
    hide Patched;
    var o := s.orchs[0];
    events', s' := Then(c, s0, events, s, Advance(0, Good("")));
    if !c.atomic {
      events', s' := Then(c, s0, events', s', Advance(0, Good("")));
      assert s.orchs[0 := o.(pc := Write(to))][0 := UpdateDone(o, to)] == s.orchs[0 := UpdateDone(o, to)];
    }
  }

  /** A lone call with every answer good, as far as the try block. */
  lemma AloneToReserve(c: Config, s0: State, credential: string) returns (events: seq<Event>, s: State)
    requires Vaulted(c.txn) && s0.row == NewRow && s0.orchs == map[]
    ensures Run(c, s0, events) == s
    ensures 0 in s.orchs && s.orchs[0].pc == Reserve && s.orchs[0].verdict == Threw && s.captures == s0.captures
    ensures s.clock == s0.clock && s.atc == s0.atc && s.reserves == s0.reserves && s.mints == s0.mints
    ensures s.history == s0.history + [AUTHN_STARTED, AUTHN_COMPLETE]
    ensures s.row == NewRow.(status := AUTHN_COMPLETE, usedCredentialId := Some(credential))
  {
    events, s := [], s0;
    events, s := Then(c, s0, events, s, Arrive(0, credential));
    events, s := Then(c, s0, events, s, Advance(0, Good("")));
    events, s := UpdateAlone(c, s0, events, s, AUTHN_STARTED);
    events, s := UpdateAlone(c, s0, events, s, AUTHN_COMPLETE);
    assert s.history == s0.history + [AUTHN_STARTED, AUTHN_COMPLETE];
  }

  /** The same call, as far as the retrieval token. */
  lemma AloneToMint(c: Config, s0: State, credential: string, n: nat) returns (events: seq<Event>, s: State)
    requires Vaulted(c.txn) && s0 == Init(n, c.txn.expiresAt)
    ensures Run(c, s0, events) == s
    ensures 0 in s.orchs && s.orchs[0].pc == Mint && s.orchs[0].verdict == Threw
    ensures s.captures == [] && s.reserves == [(0, n + 1)] && s.mints == [] && s.clock == s0.clock
    ensures s.history == [PENDING, AUTHN_STARTED, AUTHN_COMPLETE, ARQC_VALID]
    ensures s.row == NewRow.(status := ARQC_VALID, usedCredentialId := Some(credential),
                             arqc := Some(c.cryptogram(n + 1)), atcUsed := Some(n + 1))
  {
    events, s := AloneToReserve(c, s0, credential);
    events, s := Then(c, s0, events, s, Advance(0, Good("")));
    assert s.orchs[0].pc == Update(ARQC_VALID) && s.orchs[0].atc == Some(n + 1);
    events, s := UpdateAlone(c, s0, events, s, ARQC_VALID);
  }

  /** The same call, as far as the charge. */
  lemma AloneToCharge(c: Config, s0: State, credential: string, n: nat, pm: string)
    returns (events: seq<Event>, s: State)
    requires Vaulted(c.txn) && s0 == Init(n, c.txn.expiresAt)
    ensures Run(c, s0, events) == s
    ensures 0 in s.orchs && s.orchs[0].pc == Charge && s.orchs[0].verdict == Threw
    ensures s.orchs[0].paymentMethodId == Some(pm)
    ensures s.captures == [] && s.reserves == [(0, n + 1)] && s.mints == [0] && s.clock == s0.clock
    ensures s.history == [PENDING, AUTHN_STARTED, AUTHN_COMPLETE, ARQC_VALID, VAULT_RETRIEVED]
    ensures s.row == NewRow.(status := VAULT_RETRIEVED, usedCredentialId := Some(credential),
                             arqc := Some(c.cryptogram(n + 1)), atcUsed := Some(n + 1),
                             providerName := Some(c.providerName), paymentMethodId := Some(pm))
  {
    events, s := AloneToMint(c, s0, credential, n);
    events, s := Then(c, s0, events, s, Advance(0, Good("")));
    events, s := Then(c, s0, events, s, Advance(0, Good(pm)));
    assert s.orchs[0].pc == Update(VAULT_RETRIEVED) && s.orchs[0].paymentMethodId == Some(pm);
    events, s := UpdateAlone(c, s0, events, s, VAULT_RETRIEVED);
  }

  /** The same call, when it has charged. */
  lemma AloneCharged(c: Config, s0: State, credential: string, n: nat, pm: string, txnId: string)
    returns (events: seq<Event>, s: State)
    requires Vaulted(c.txn) && s0 == Init(n, c.txn.expiresAt)
    ensures Run(c, s0, events) == s
    ensures 0 in s.orchs && s.orchs[0].pc == Update(STRIPE_CHARGED) && s.orchs[0].verdict == Threw
    ensures s.orchs[0].txnId == Some(txnId)
    ensures s.captures == [Capture("charge_" + c.txn.id, c.txn.amount, c.txn.currency, pm, txnId)]
    ensures s.reserves == [(0, n + 1)] && s.mints == [0] && s.clock == s0.clock
    ensures s.history == [PENDING, AUTHN_STARTED, AUTHN_COMPLETE, ARQC_VALID, VAULT_RETRIEVED]
    ensures s.row == NewRow.(status := VAULT_RETRIEVED, usedCredentialId := Some(credential),
                             arqc := Some(c.cryptogram(n + 1)), atcUsed := Some(n + 1),
                             providerName := Some(c.providerName), paymentMethodId := Some(pm))
  {
    events, s := AloneToCharge(c, s0, credential, n, pm);
    events, s := Then(c, s0, events, s, Advance(0, Good(txnId)));
  }

  /**
   A lone call whose every operation succeeds walks the whole happy path, reserves and mints
   once, fills the whole row, charges once, under a key of the row's own, and says COMPLETED.
   */
  lemma LoneCallCompletes(c: Config, credential: string, n: nat, pm: string, txnId: string) returns (events: seq<Event>)
    requires Vaulted(c.txn)
    ensures var s := Run(c, Init(n, c.txn.expiresAt), events);
            && s.captures == [Capture("charge_" + c.txn.id, c.txn.amount, c.txn.currency, pm, txnId)]
            && s.reserves == [(0, n + 1)] && s.mints == [0] && s.history == HAPPY_PATH
            && 0 in s.orchs && s.orchs[0].pc == Ended(ReturnedCompleted)
            && s.row == Row(COMPLETED, Some(credential), Some(c.cryptogram(n + 1)), Some(n + 1),
                            Some(c.providerName), Some(pm), Some(txnId), Some(c.txn.tier),
                            Some(c.txn.expiresAt), None, None)
  {
    var s0 := Init(n, c.txn.expiresAt);
    var s: State;
    events, s := AloneCharged(c, s0, credential, n, pm, txnId);
    events, s := UpdateAlone(c, s0, events, s, STRIPE_CHARGED);
    assert s.orchs[0].pc == Update(COMPLETED) && s.row.status == STRIPE_CHARGED;
    events, s := UpdateAlone(c, s0, events, s, COMPLETED);
  }

  /** No two transactions share an idempotency key. */
  lemma ChargeKeysAreDistinct(t: Txn, u: Txn)
    ensures ChargeKey(t) == ChargeKey(u) <==> t.id == u.id
  {
    assert ChargeKey(t)[7..] == t.id && ChargeKey(u)[7..] == u.id;
  }

  // --- FAILED and the books -------------------------------------------------------------------

  predicate AfterCharge(to: Status) { to == STRIPE_CHARGED || to == COMPLETED }

  /** The event leaves no charge unrecorded: none is lost, and the updates after one succeed. */
  predicate Settles(s: State, e: Event) {
    e.Advance? && e.k in s.orchs ==>
      var pc := s.orchs[e.k].pc;
      && (pc == Charge ==> !e.reply.Lost?)
      && ((pc.Update? || pc.Write?) && AfterCharge(pc.to) ==> e.reply.Good?)
  }

  ghost predicate AllSettle(c: Config, s: State, events: seq<Event>)
    decreases |events|
  {
    events == [] || (Settles(s, events[0]) && AllSettle(c, Apply(c, s, events[0]), events[1..]))
  }

  /** No charge takes effect. */
  predicate NoChargeIn(s: State, e: Event) {
    !(e.Advance? && e.k in s.orchs && s.orchs[e.k].pc == Charge && Landed(e.reply))
  }

  ghost predicate NoneCharges(c: Config, s: State, events: seq<Event>)
    decreases |events|
  {
    events == [] || (NoChargeIn(s, events[0]) && NoneCharges(c, Apply(c, s, events[0]), events[1..]))
  }

  lemma CapturesGrow(c: Config, s: State, e: Event)
    requires PaymentBooks.Inv(c, s)
    ensures s.captures == [] ==> (Apply(c, s, e).captures == [] <==> NoChargeIn(s, e))
    ensures s.captures != [] ==> Apply(c, s, e).captures != []
  {
    hide PaymentBooks.RowOk;
    if e.Advance? && e.k in s.orchs {
      assert PaymentBooks.OrchOk(c, s, s.orchs[e.k]);
      if s.orchs[e.k].pc != Charge {
        OnlyChargesCapture(c, s, e.k, e.reply);
      }
    }
  }

  lemma OnlyChargesCapture(c: Config, s: State, k: nat, reply: Reply)
    requires k in s.orchs && s.orchs[k].pc != Charge
    ensures AdvanceOrch(c, s, k, reply).captures == s.captures
  {
    if s.orchs[k].pc.Update? || s.orchs[k].pc.Write? {
      hide Patched, ExtraFor, CanTransition;
    } else {
      hide Charged;
    }
  }

  lemma {:induction false} BooksRun(c: Config, s: State, events: seq<Event>)
    requires PaymentBooks.Inv(c, s)
    ensures Run(c, s, events).captures == [] <==> s.captures == [] && NoneCharges(c, s, events)
    decreases |events|
  {
    hide PaymentBooks.Inv, NoChargeIn;
    if events != [] {
      CapturesGrow(c, s, events[0]);
      PaymentBooks.ApplyKeeps(c, s, events[0]);
      BooksRun(c, Apply(c, s, events[0]), events[1..]);
    }
  }

  /**
   Either granularity, whatever the row says: nothing was charged exactly if no reply to a call
   at its charge, heard or lost, was a charge that took effect.
   */
  lemma UnchargedIffNoneCharges(c: Config, atc: nat, clock: int, events: seq<Event>)
    ensures Run(c, Init(atc, clock), events).captures == [] <==> NoneCharges(c, Init(atc, clock), events)
  {
    BooksRun(c, Init(atc, clock), events);
  }

  /** An event that settles nothing finds a charge on the books, or puts one there. */
  lemma UnsettledIsCharged(c: Config, s: State, e: Event)
    requires PaymentBooks.Inv(c, s) && !Settles(s, e)
    ensures Apply(c, s, e).captures != []
  {
    var o := s.orchs[e.k];
    assert PaymentBooks.OrchOk(c, s, o);
    CapturesGrow(c, s, e);
  }

  lemma {:induction false} UnchargedRunSettles(c: Config, s: State, events: seq<Event>)
    requires PaymentBooks.Inv(c, s) && Run(c, s, events).captures == []
    ensures AllSettle(c, s, events)
    decreases |events|
  {
    hide PaymentBooks.Inv, Settles;
    if events != [] {
      PaymentBooks.ApplyKeeps(c, s, events[0]);
      BooksRun(c, Apply(c, s, events[0]), events[1..]);
      if !Settles(s, events[0]) {
        UnsettledIsCharged(c, s, events[0]);
      }
      UnchargedRunSettles(c, Apply(c, s, events[0]), events[1..]);
    }
  }

  /** Where the winner is once it has charged, if everything settles. */
  predicate Recording(pc: Pc) {
    || PaymentWinner.Doing(pc) == Update(STRIPE_CHARGED) || PaymentWinner.Doing(pc) == Update(COMPLETED)
    || pc == Ended(ReturnedCompleted)
  }

  /** While everything settles, a charge on the books has the winner on its way to COMPLETED. */
  ghost predicate OnTheWay(s: State) {
    s.captures != [] ==>
      && s.row.status != FAILED
      && forall k | k in s.orchs && s.orchs[k].entered :: Recording(s.orchs[k].pc)
  }

  lemma WinnerOnTheWay(c: Config, s: State, k: nat, reply: Reply)
    requires PaymentWinner.Inv(c, s) && OnTheWay(s) && k in s.orchs && s.orchs[k].entered
    requires Settles(s, Advance(k, reply))
    ensures OnTheWay(AdvanceOrch(c, s, k, reply))
  {
    assert PaymentWinner.WinnerOk(c, s, k, s.orchs[k]);
    PaymentBooks.OthersStand(c, s, k, reply);
    var t := AdvanceOrch(c, s, k, reply);
    if s.captures == [] && s.orchs[k].pc != Charge {
      OnlyChargesCapture(c, s, k, reply);
    } else {
      assert forall l | l in t.orchs && t.orchs[l].entered :: l == k by {
        PaymentWinner.WinnerSteps(c, s, k, reply);
      }
      WinnersCharge(c, s, k, reply);
    }
  }

  lemma WinnersCharge(c: Config, s: State, k: nat, reply: Reply)
    requires k in s.orchs && PaymentWinner.WinnerOk(c, s, k, s.orchs[k])
    requires Settles(s, Advance(k, reply))
    requires if s.captures == [] then s.orchs[k].pc == Charge else s.row.status != FAILED && Recording(s.orchs[k].pc)
    ensures var t := AdvanceOrch(c, s, k, reply);
            t.captures != [] ==> t.row.status != FAILED && k in t.orchs && Recording(t.orchs[k].pc)
  {
    hide ExtraFor;
  }

  lemma OutsiderOnTheWay(c: Config, s: State, k: nat, reply: Reply)
    requires PaymentWinner.Inv(c, s) && OnTheWay(s) && k in s.orchs && !s.orchs[k].entered
    requires EntryHolds(s, Advance(k, reply))
    ensures OnTheWay(AdvanceOrch(c, s, k, reply))
  {
    assert PaymentWinner.OutsiderOk(c, s.orchs[k]);
    OnlyChargesCapture(c, s, k, reply);
    if s.captures != [] {
      var l :| l in s.orchs && s.orchs[l].entered;
      assert PaymentWinner.WinnerOk(c, s, l, s.orchs[l]);
      PaymentBooks.OthersStand(c, s, k, reply);
      OutsiderStands(c, s, k, reply);
    }
  }

  lemma OutsiderStands(c: Config, s: State, k: nat, reply: Reply)
    requires Vaulted(c.txn) && UnderWay(s.row.status) && k in s.orchs && !s.orchs[k].entered
    requires PaymentWinner.OutsiderOk(c, s.orchs[k]) && EntryHolds(s, Advance(k, reply))
    ensures var t := AdvanceOrch(c, s, k, reply); t.row == s.row && !t.orchs[k].entered
  {
    hide ExtraFor, Patched;
    assert !CanTransition(s.row.status, AUTHN_STARTED);
  }

  lemma StepOnTheWay(c: Config, s: State, e: Event)
    requires PaymentWinner.Inv(c, s) && OnTheWay(s) && Settles(s, e) && EntryHolds(s, e)
    ensures OnTheWay(Apply(c, s, e))
  {
    if e.Advance? && e.k in s.orchs {
      hide PaymentWinner.Inv, OnTheWay, Settles, EntryHolds, AdvanceOrch;
      if s.orchs[e.k].entered {
        WinnerOnTheWay(c, s, e.k, e.reply);
      } else {
        OutsiderOnTheWay(c, s, e.k, e.reply);
      }
    }
  }

  lemma {:induction false} SettledRun(c: Config, s: State, events: seq<Event>)
    requires PaymentWinner.Inv(c, s) && OnTheWay(s) && AllSettle(c, s, events) && EntriesHold(c, s, events)
    ensures OnTheWay(Run(c, s, events))
    decreases |events|
  {
    hide PaymentWinner.Inv, OnTheWay, Settles, EntryHolds, Apply;
    if events != [] {
      StepOnTheWay(c, s, events[0]);
      PaymentWinner.ApplyKeeps(c, s, events[0]);
      SettledRun(c, Apply(c, s, events[0]), events[1..]);
    }
  }

  /**
   Exactly when FAILED means "not charged", at either granularity, on every run in which no
   AUTHN_STARTED is written over a row under way: a row that ends FAILED was never charged if
   and only if no charge's answer was lost and every update after a charge succeeded.
   */
  lemma FailedIsUnchargedIffSettled(c: Config, atc: nat, clock: int, events: seq<Event>)
    requires EntriesHold(c, Init(atc, clock), events)
    ensures FailedRule(c, atc, clock, events)
  {
    var s := Run(c, Init(atc, clock), events);
    if s.row.status == FAILED {
      if s.captures == [] {
        UnchargedRunSettles(c, Init(atc, clock), events);
      } else if AllSettle(c, Init(atc, clock), events) {
        SettledRun(c, Init(atc, clock), events);
      }
    }
  }

  ghost predicate FailedRule(c: Config, atc: nat, clock: int, events: seq<Event>) {
    var s := Run(c, Init(atc, clock), events);
    s.row.status == FAILED ==> (s.captures == [] <==> AllSettle(c, Init(atc, clock), events))
  }

  /** At either granularity: the charge takes effect, its answer is lost, and fail() records FAILED. */
  lemma FailedMayBeCharged(c: Config) returns (events: seq<Event>)
    requires Vaulted(c.txn)
    ensures var s := Run(c, Init(0, c.txn.expiresAt), events);
            s.row.status == FAILED && |s.captures| == 1
  {
    var s0 := Init(0, c.txn.expiresAt);
    var s: State;
    events, s := AloneToCharge(c, s0, "credential", 0, "pm");
    events, s := Then(c, s0, events, s, Advance(0, Lost("txn")));
    assert s.orchs[0].pc == Update(FAILED) && |s.captures| == 1 && s.row.status == VAULT_RETRIEVED;
    events, s := UpdateAlone(c, s0, events, s, FAILED);
  }

  lemma {:induction false} GoodRunsSettle(c: Config, s: State, events: seq<Event>)
    requires AllGood(events)
    ensures AllSettle(c, s, events)
    decreases |events|
  {
    if events != [] {
      assert events[0] in events;
      assert forall e | e in events[1..] :: e in events;
      GoodRunsSettle(c, Apply(c, s, events[0]), events[1..]);
    }
  }

  lemma {:induction false} SettleAppend(c: Config, s: State, a: seq<Event>, b: seq<Event>)
    requires AllSettle(c, s, a) && AllSettle(c, Run(c, s, a), b)
    ensures AllSettle(c, s, a + b)
    decreases |a|
  {
    if a == [] {
      assert a + b == b;
    } else {
      assert (a + b)[0] == a[0] && (a + b)[1..] == a[1..] + b;
      SettleAppend(c, Apply(c, s, a[0]), a[1..], b);
    }
  }

  lemma ThenSettled(c: Config, s0: State, events: seq<Event>, s: State, e: Event)
    returns (events': seq<Event>, s': State)
    requires Run(c, s0, events) == s && AllSettle(c, s0, events) && Settles(s, e)
    ensures s' == Apply(c, s, e) && Run(c, s0, events') == s' && AllSettle(c, s0, events')
  {
    events', s' := Then(c, s0, events, s, e);
    assert [e][1..] == [];
    SettleAppend(c, s0, events, [e]);
  }

  /** One call's mint fails, and it reads a row that it may still fail. */
  lemma OneIsAboutToFail(c: Config, s0: State) returns (events: seq<Event>, s: State)
    requires !c.atomic && Vaulted(c.txn) && s0 == Init(0, c.txn.expiresAt)
    ensures Run(c, s0, events) == s && AllSettle(c, s0, events)
    ensures 0 in s.orchs && s.orchs[0].pc == Mint && 1 in s.orchs && s.orchs[1].pc == Write(FAILED)
    ensures s.row.status == ARQC_VALID && s.captures == []
  {
    events, s := BothMint(c, s0);
    GoodRunsSettle(c, s0, events);
    events, s := ThenSettled(c, s0, events, s, Advance(1, Broken));
    events, s := ThenSettled(c, s0, events, s, Advance(1, Good("")));
  }

  /** The other goes on to its charge. */
  lemma OtherIsAboutToCharge(c: Config, s0: State) returns (events: seq<Event>, s: State)
    requires !c.atomic && Vaulted(c.txn) && s0 == Init(0, c.txn.expiresAt)
    ensures Run(c, s0, events) == s && AllSettle(c, s0, events)
    ensures 0 in s.orchs && s.orchs[0].pc == Charge && s.orchs[0].paymentMethodId.Some?
    ensures 1 in s.orchs && s.orchs[1].pc == Write(FAILED) && s.captures == []
  {
    events, s := OneIsAboutToFail(c, s0);
    events, s := ThenSettled(c, s0, events, s, Advance(0, Good("")));
    events, s := ThenSettled(c, s0, events, s, Advance(0, Good("pm")));
    assert s.orchs[0].pc == Update(VAULT_RETRIEVED) && s.orchs[0].paymentMethodId == Some("pm");
    events, s := ThenSettled(c, s0, events, s, Advance(0, Good("")));
    events, s := ThenSettled(c, s0, events, s, Advance(0, Good("")));
  }

  /**
   Without that condition not even settling helps: two calls enter; one's mint fails and it reads a row it
   may still fail; the other call charges; then the first writes FAILED.
   */
  lemma SettledFailedMayBeCharged(c: Config) returns (events: seq<Event>)
    requires !c.atomic && Vaulted(c.txn)
    ensures var s := Run(c, Init(0, c.txn.expiresAt), events);
            s.row.status == FAILED && |s.captures| == 1 && AllSettle(c, Init(0, c.txn.expiresAt), events)
  {
    var s0 := Init(0, c.txn.expiresAt);
    var s: State;
    events, s := OtherIsAboutToCharge(c, s0);
    events, s := ThenSettled(c, s0, events, s, Advance(0, Good("txn")));
    assert s.orchs[1].pc == Write(FAILED) && |s.captures| == 1;
    events, s := ThenSettled(c, s0, events, s, Advance(1, Good("")));
  }

  /** The rule for FAILED rows holds of every run of a vaulted card exactly if updateStatus is one step. */
  lemma FailedRuleIffAtomic(c: Config)
    requires Vaulted(c.txn)
    ensures (forall atc: nat, clock: int, events: seq<Event> :: FailedRule(c, atc, clock, events)) <==> c.atomic
  {
    if c.atomic {
      forall atc: nat, clock: int, events: seq<Event>
        ensures FailedRule(c, atc, clock, events)
      {
        OneStepIsNeverOvertaken(c, atc, clock, events);
        FailedIsUnchargedIffSettled(c, atc, clock, events);
      }
    } else {
      var events := SettledFailedMayBeCharged(c);
      assert !FailedRule(c, 0, c.txn.expiresAt, events);
    }
  }
}
