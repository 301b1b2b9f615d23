/**
 What the two round trips of updateStatus cost (services/pay/src/transactions/transaction.service.ts:133-139):
 the settings under which the results of PaymentWinner hold of every run, exactly, and a
 concrete run for each that fails at the code's own.
 */
module PaymentRaces {
  import opened StateMachine
  import opened PaymentProtocol
  import PaymentBooks
  import opened PaymentGuards
  import PaymentWinner

  lemma Then(c: Config, s0: State, events: seq<Event>, s: State, e: Event) returns (events': seq<Event>, s': State)
    requires Run(c, s0, events) == s
    ensures events' == events + [e] && s' == Apply(c, s, e) && Run(c, s0, events') == s'
  {
    RunAppend(c, s0, events, [e]);
    events', s' := events + [e], Apply(c, s, e);
    assert Run(c, s, [e]) == Run(c, Apply(c, s, e), [][..]);
  }

  /** A sweep falls between the read and the update of the first updateStatus; `last` is the update. */
  lemma UpToTheWrite(c: Config) returns (before: seq<Event>, last: Event)
    requires !c.atomic && Vaulted(c.txn)
    ensures var s, t := Run(c, Init(0, c.txn.expiresAt), before), Run(c, Init(0, c.txn.expiresAt), before + [last]);
            && s.history == [PENDING, EXPIRED] && s.row.status == EXPIRED
            && t.history == [PENDING, EXPIRED, AUTHN_STARTED] && t.row.status == AUTHN_STARTED
  {
    var s0 := Init(0, c.txn.expiresAt);
    var s := s0;
    before := [];
    before, s := Then(c, s0, before, s, Arrive(0, "credential"));
    before, s := Then(c, s0, before, s, Advance(0, Good("")));
    before, s := Then(c, s0, before, s, Advance(0, Good("")));
    before, s := Then(c, s0, before, s, Tick(1));
    before, s := Then(c, s0, before, s, Sweep(c.txn.expiresAt + 1));
    assert s.row.status == EXPIRED;
    last := Advance(0, Good(""));
    var events, t := Then(c, s0, before, s, last);
  }

  /** The code's own granularity undoes a terminal row: the update puts it back to AUTHN_STARTED. */
  lemma StaleWriteUndoesExpiry(c: Config) returns (events: seq<Event>)
    requires !c.atomic && Vaulted(c.txn)
    ensures var s := Run(c, Init(0, c.txn.expiresAt), events);
            s.history == [PENDING, EXPIRED, AUTHN_STARTED] && s.row.status == AUTHN_STARTED
  {
    var before, last := UpToTheWrite(c);
    events := before + [last];
  }

  /** Both calls complete their next operation, the first call first. */
  lemma Both(c: Config, s0: State, events: seq<Event>, s: State) returns (events': seq<Event>, s': State)
    requires Run(c, s0, events) == s
    ensures events' == events + [Advance(0, Good("id")), Advance(1, Good("id"))]
    ensures s' == Apply(c, Apply(c, s, Advance(0, Good("id"))), Advance(1, Good("id")))
    ensures Run(c, s0, events') == s'
  {
    events', s' := Then(c, s0, events, s, Advance(0, Good("id")));
    events', s' := Then(c, s0, events', s', Advance(1, Good("id")));
    assert events' == events + [Advance(0, Good("id")), Advance(1, Good("id"))];
  }

  /** Every awaited operation of the run succeeds. */
  ghost predicate AllGood(events: seq<Event>) { forall e | e in events && e.Advance? :: e.reply.Good? }

  ghost predicate At(s: State, pc: Pc, status: Status, captures: nat) {
    && 0 in s.orchs && 1 in s.orchs && s.orchs[0].pc == pc && s.orchs[1].pc == pc
    && s.row.status == status && |s.captures| == captures
  }

  /** Two calls in lockstep through one updateStatus: both read, then both write. */
  lemma BothUpdate(c: Config, s0: State, events: seq<Event>, s: State, to: Status)
    returns (events': seq<Event>, s': State)
    requires !c.atomic && Run(c, s0, events) == s && At(s, Update(to), s.row.status, |s.captures|)
    requires CanTransition(s.row.status, to)
    ensures Run(c, s0, events') == s'
    ensures 0 in s'.orchs && 1 in s'.orchs && s'.captures == s.captures && s'.row.status == to
    ensures s'.reserves == s.reserves && s'.mints == s.mints
    ensures AllGood(events) ==> AllGood(events')
    ensures s'.orchs[0] == UpdateDone(s.orchs[0].(pc := Write(to)), to)
    ensures s'.orchs[1] == UpdateDone(s.orchs[1].(pc := Write(to)), to)
  {
    events', s' := Both(c, s0, events, s);
    assert At(s', Write(to), s.row.status, |s.captures|);
    events', s' := Both(c, s0, events', s');
  }

  lemma BothMint(c: Config, s0: State) returns (events: seq<Event>, s: State)
    requires !c.atomic && Vaulted(c.txn) && s0 == Init(0, c.txn.expiresAt)
    ensures Run(c, s0, events) == s && At(s, Mint, ARQC_VALID, 0) && AllGood(events)
    ensures |s.reserves| == 2 && s.mints == [] && s.orchs[0].entered && s.orchs[1].entered
  {
    events, s := [], s0;
    events, s := Then(c, s0, events, s, Arrive(0, "a"));
    events, s := Then(c, s0, events, s, Arrive(1, "b"));
    events, s := Both(c, s0, events, s);
    events, s := BothUpdate(c, s0, events, s, AUTHN_STARTED);
    events, s := BothUpdate(c, s0, events, s, AUTHN_COMPLETE);
    events, s := Both(c, s0, events, s);
    assert At(s, Update(ARQC_VALID), AUTHN_COMPLETE, 0);
    events, s := BothUpdate(c, s0, events, s, ARQC_VALID);
  }

  lemma BothTokenise(c: Config, s0: State) returns (events: seq<Event>, s: State)
    requires !c.atomic && Vaulted(c.txn) && s0 == Init(0, c.txn.expiresAt)
    ensures Run(c, s0, events) == s && At(s, Update(VAULT_RETRIEVED), ARQC_VALID, 0)
    ensures s.orchs[0].paymentMethodId.Some? && s.orchs[1].paymentMethodId.Some? && |s.mints| == 2
  {
    events, s := BothMint(c, s0);
    events, s := Both(c, s0, events, s);
    assert At(s, Tokenise, ARQC_VALID, 0);
    events, s := Both(c, s0, events, s);
  }

  lemma BothCharge(c: Config, s0: State) returns (events: seq<Event>, s: State)
    requires !c.atomic && !c.honoursKeys && Vaulted(c.txn) && s0 == Init(0, c.txn.expiresAt)
    ensures Run(c, s0, events) == s && At(s, Update(STRIPE_CHARGED), VAULT_RETRIEVED, 2)
  {
    events, s := BothTokenise(c, s0);
    events, s := BothUpdate(c, s0, events, s, VAULT_RETRIEVED);
    assert At(s, Charge, VAULT_RETRIEVED, 0);
    events, s := Both(c, s0, events, s);
  }

  /**
   With the code's granularity a provider that ignores idempotency keys charges twice, and the
   row ends COMPLETED: two calls in lockstep both pass every check.
   */
  lemma TwoCapturesWithoutKeys(c: Config) returns (events: seq<Event>)
    requires !c.atomic && !c.honoursKeys && Vaulted(c.txn)
    ensures var s := Run(c, Init(0, c.txn.expiresAt), events); |s.captures| == 2 && s.row.status == COMPLETED
  {
    var s0 := Init(0, c.txn.expiresAt);
    var s: State;
    events, s := BothCharge(c, s0);
    events, s := BothUpdate(c, s0, events, s, STRIPE_CHARGED);
    events, s := BothUpdate(c, s0, events, s, COMPLETED);
  }

  /** Every history of a vaulted card's row is a path of the table exactly if updateStatus is one step. */
  lemma HistoriesArePathsIffAtomic(c: Config)
    requires Vaulted(c.txn)
    ensures (forall atc: nat, clock: int, events: seq<Event> :: IsPath(Run(c, Init(atc, clock), events).history))
            <==> c.atomic
  {
    if c.atomic {
      forall atc: nat, clock: int, events: seq<Event>
        ensures IsPath(Run(c, Init(atc, clock), events).history)
      {
        OneStepIsNeverOvertaken(c, atc, clock, events);
        PaymentWinner.HistoriesArePaths(c, atc, clock, events);
      }
    } else {
      var events := StaleWriteUndoesExpiry(c);
      var h := Run(c, Init(0, c.txn.expiresAt), events).history;
      assert !CanTransition(h[1], h[2]);
    }
  }

  /** Terminal rows stay, whatever follows any run that left one, exactly if updateStatus is one step. */
  lemma TerminalRowsStayIffAtomic(c: Config)
    requires Vaulted(c.txn)
    ensures (forall atc: nat, clock: int, before: seq<Event>, after: seq<Event> ::
               RowStays(c, atc, clock, before, after))
            <==> c.atomic
  {
    if c.atomic {
      forall atc: nat, clock: int, before: seq<Event>, after: seq<Event>
        ensures RowStays(c, atc, clock, before, after)
      {
        if IsTerminal(Run(c, Init(atc, clock), before).row.status) {
          OneStepIsNeverOvertaken(c, atc, clock, before + after);
          GuardsHoldAfter(c, Init(atc, clock), before, after);
          PaymentWinner.TerminalRowsStay(c, atc, clock, before, after);
        }
      }
    } else {
      var before, last := UpToTheWrite(c);
      assert !RowStays(c, 0, c.txn.expiresAt, before, [last]);
    }
  }

  ghost predicate RowStays(c: Config, atc: nat, clock: int, before: seq<Event>, after: seq<Event>) {
    IsTerminal(Run(c, Init(atc, clock), before).row.status) ==>
      Run(c, Init(atc, clock), before + after).row == Run(c, Init(atc, clock), before).row
  }

  /** At most one call wins on every run exactly if updateStatus is one step. */
  lemma AtMostOneWinnerIffAtomic(c: Config)
    requires Vaulted(c.txn)
    ensures (forall atc: nat, clock: int, events: seq<Event> ::
               PaymentWinner.OneWinner(Run(c, Init(atc, clock), events)))
            <==> c.atomic
  {
    if c.atomic {
      forall atc: nat, clock: int, events: seq<Event>
        ensures PaymentWinner.OneWinner(Run(c, Init(atc, clock), events))
      {
        forall k, l
          ensures var s := Run(c, Init(atc, clock), events);
                  k in s.orchs && l in s.orchs && s.orchs[k].entered && s.orchs[l].entered ==> k == l
        {
          OneStepIsNeverOvertaken(c, atc, clock, events);
          PaymentWinner.SingleWinner(c, atc, clock, events, k, l);
        }
      }
    } else {
      var events, s := BothMint(c, Init(0, c.txn.expiresAt));
      assert !PaymentWinner.OneWinner(Run(c, Init(0, c.txn.expiresAt), events));
    }
  }

  /**
   One row makes at most one ATC reservation on every run exactly if updateStatus is one step,
   whatever the provider does.
   */
  lemma AtMostOneReservationIffAtomic(c: Config)
    requires Vaulted(c.txn)
    ensures (forall atc: nat, clock: int, events: seq<Event> :: |Run(c, Init(atc, clock), events).reserves| <= 1)
            <==> c.atomic
  {
    if c.atomic {
      forall atc: nat, clock: int, events: seq<Event>
        ensures |Run(c, Init(atc, clock), events).reserves| <= 1
      {
        OneStepIsNeverOvertaken(c, atc, clock, events);
        PaymentWinner.SingleWinner(c, atc, clock, events, 0, 0);
      }
    } else {
      var events, s := BothMint(c, Init(0, c.txn.expiresAt));
      assert |Run(c, Init(0, c.txn.expiresAt), events).reserves| == 2;
    }
  }

  /** The same of retrieval tokens. */
  lemma AtMostOneMintIffAtomic(c: Config)
    requires Vaulted(c.txn)
    ensures (forall atc: nat, clock: int, events: seq<Event> :: |Run(c, Init(atc, clock), events).mints| <= 1)
            <==> c.atomic
  {
    if c.atomic {
      forall atc: nat, clock: int, events: seq<Event>
        ensures |Run(c, Init(atc, clock), events).mints| <= 1
      {
        OneStepIsNeverOvertaken(c, atc, clock, events);
        PaymentWinner.SingleWinner(c, atc, clock, events, 0, 0);
      }
    } else {
      var events, s := BothTokenise(c, Init(0, c.txn.expiresAt));
      assert |Run(c, Init(0, c.txn.expiresAt), events).mints| == 2;
    }
  }

  /** COMPLETED means exactly one capture on every run exactly if one of the two guards is there. */
  lemma CompletedMeansOneCaptureIff(c: Config)
    requires Vaulted(c.txn)
    ensures (forall atc: nat, clock: int, events: seq<Event> :: OneIfCompleted(Run(c, Init(atc, clock), events)))
            <==> c.atomic || c.honoursKeys
  {
    if c.atomic || c.honoursKeys {
      forall atc: nat, clock: int, events: seq<Event>
        ensures OneIfCompleted(Run(c, Init(atc, clock), events))
      {
        if c.atomic {
          OneStepIsNeverOvertaken(c, atc, clock, events);
          PaymentWinner.CompletedMeansOneCapture(c, atc, clock, events);
        } else {
          PaymentBooks.AtMostOneCapture(c, atc, clock, events);
          PaymentBooks.ChargedRowsWereCharged(c, atc, clock, events);
        }
      }
    } else {
      var events := TwoCapturesWithoutKeys(c);
      assert !OneIfCompleted(Run(c, Init(0, c.txn.expiresAt), events));
    }
  }

  predicate OneIfCompleted(s: State) { s.row.status == COMPLETED ==> |s.captures| == 1 }

  /**
   Losers, exactly: in any reachable state whose row has left PENDING, at either granularity, a
   step of a call that has not won moves that call and nothing else, unless it is the write
   half of an update whose guard was read earlier; and none is ever on its way to fail().
   */
  lemma LoserChangesNothingIff(c: Config, atc: nat, clock: int, events: seq<Event>, k: nat, reply: Reply)
    requires Vaulted(c.txn)
    ensures var s := Run(c, Init(atc, clock), events);
            s.row.status != PENDING && k in s.orchs && !s.orchs[k].entered ==>
              var s' := Apply(c, s, Advance(k, reply));
              && k in s'.orchs && s'.orchs[k].pc != Update(FAILED) && s'.orchs[k].pc != Write(FAILED)
              && (s' == s.(orchs := s.orchs[k := s'.orchs[k]])
                  <==> !(s.orchs[k].pc == Write(AUTHN_STARTED) && Landed(reply)))
  {
    PaymentWinner.OutsidersRun(c, Init(atc, clock), events);
    var s := Run(c, Init(atc, clock), events);
    if s.row.status != PENDING && k in s.orchs && !s.orchs[k].entered {
      LoserStepIff(c, s, k, reply);
    }
  }

  lemma LoserStepIff(c: Config, s: State, k: nat, reply: Reply)
    requires k in s.orchs && PaymentWinner.OutsiderOk(c, s.orchs[k]) && Vaulted(c.txn) && s.row.status != PENDING
    ensures var s' := AdvanceOrch(c, s, k, reply);
            && k in s'.orchs && s'.orchs[k].pc != Update(FAILED) && s'.orchs[k].pc != Write(FAILED)
            && (s' == s.(orchs := s.orchs[k := s'.orchs[k]])
                <==> !(s.orchs[k].pc == Write(AUTHN_STARTED) && Landed(reply)))
  {
    hide Patched, ExtraFor;
    assert s.orchs[k := s.orchs[k]] == s.orchs;
    assert !CanTransition(s.row.status, AUTHN_STARTED);
    assert forall row :: WithRow(s, row).history != s.history;
  }

  /** One transaction is captured at most once on every run exactly if one of the two guards is there. */
  lemma AtMostOneCaptureIff(c: Config)
    requires Vaulted(c.txn)
    ensures (forall atc: nat, clock: int, events: seq<Event> :: |Run(c, Init(atc, clock), events).captures| <= 1)
            <==> c.atomic || c.honoursKeys
  {
    if c.atomic || c.honoursKeys {
      forall atc: nat, clock: int, events: seq<Event>
        ensures |Run(c, Init(atc, clock), events).captures| <= 1
      {
        if c.atomic {
          OneStepIsNeverOvertaken(c, atc, clock, events);
          PaymentWinner.SingleWinner(c, atc, clock, events, 0, 0);
        } else {
          PaymentBooks.AtMostOneCapture(c, atc, clock, events);
        }
      }
    } else {
      var events := TwoCapturesWithoutKeys(c);
      assert |Run(c, Init(0, c.txn.expiresAt), events).captures| == 2;
    }
  }
}
