/**
 A single winner.  At either granularity of updateStatus, on every run in which no call's
 AUTHN_STARTED is written over a row already under way (PaymentGuards.EntriesHold), one call
 at most works on the row; and that condition is exact.
 */
module PaymentWinner {
  import opened Prelude
  import opened StateMachine
  import opened PaymentProtocol
  import opened PaymentBooks
  import opened PaymentGuards

  /** What a call is doing, whichever half of an update it is at. */
  function Doing(pc: Pc): Pc { if pc.Write? then Update(pc.to) else pc }

  /** A call whose AUTHN_STARTED update has not taken effect. */
  predicate OutsiderOk(c: Config, o: Orch) {
    && o.verdict == Threw
    && (|| o.pc == Begin
        || (Vaulted(c.txn) && Doing(o.pc) == Update(AUTHN_STARTED))
        || (!Vaulted(c.txn) && Doing(o.pc) == Update(FAILED))
        || o.pc == Ended(Threw))
  }

  ghost predicate OutsidersOk(c: Config, s: State) {
    forall k | k in s.orchs && !s.orchs[k].entered :: OutsiderOk(c, s.orchs[k])
  }

  /** The call whose AUTHN_STARTED update took effect: the row's status follows its program. */
  predicate WinnerOk(c: Config, s: State, k: nat, o: Orch) {
    && Vaulted(c.txn) && o.verdict != ReturnedCompleted
    && UnderWay(s.row.status)
    && (forall x | x in s.reserves :: x.0 == k)
    && (forall x | x in s.mints :: x == k)
    && (forall x | x in s.captures :: s.row.paymentMethodId == Some(x.paymentMethodId))
    && (o.pc == Write(FAILED) ==> !IsTerminal(s.row.status))
    && match Doing(o.pc)
       case Update(AUTHN_COMPLETE) => s.row.status == AUTHN_STARTED && Idle(s)
       case Reserve => s.row.status == AUTHN_COMPLETE && Idle(s)
       case Update(ARQC_VALID) => s.row.status == AUTHN_COMPLETE && s.mints == [] && s.captures == []
       case Mint => s.row.status == ARQC_VALID && s.mints == [] && s.captures == []
       case Tokenise => s.row.status == ARQC_VALID && s.captures == []
       case Update(VAULT_RETRIEVED) => s.row.status == ARQC_VALID && s.captures == [] && o.paymentMethodId.Some?
       case Charge => s.row.status == VAULT_RETRIEVED && s.captures == [] && s.row.paymentMethodId == o.paymentMethodId
       case Update(STRIPE_CHARGED) => s.row.status == VAULT_RETRIEVED
       case Update(COMPLETED) => s.row.status == STRIPE_CHARGED
       case Update(FAILED) => true
       case Ended(outcome) => outcome == ReturnedCompleted ==> s.row.status == COMPLETED
       case _ => false
  }

  /** Nobody has entered: the row has not started, or failed for want of a vaulted card. */
  predicate Unentered(c: Config, s: State) {
    Idle(s) && (UnderWay(s.row.status) ==> !Vaulted(c.txn) && s.row.status == FAILED)
  }

  ghost predicate Inv(c: Config, s: State) {
    && OutsidersOk(c, s)
    && (forall k | k in s.orchs && s.orchs[k].entered :: WinnerOk(c, s, k, s.orchs[k]))
    && (forall k, l | k in s.orchs && l in s.orchs && s.orchs[k].entered && s.orchs[l].entered :: k == l)
    && ((forall k | k in s.orchs :: !s.orchs[k].entered) ==> Unentered(c, s))
    && |s.reserves| <= 1 && |s.mints| <= 1 && |s.captures| <= 1
  }

  /** A step of an outsider that touches nothing but its own call. */
  lemma OutsiderMoves(c: Config, s: State, k: nat, o: Orch)
    requires Inv(c, s) && !o.entered && OutsiderOk(c, o)
    requires k in s.orchs ==> !s.orchs[k].entered
    ensures Inv(c, WithOrch(s, k, o))
  {
    var s' := WithOrch(s, k, o);
    forall l | l in s'.orchs && s'.orchs[l].entered
      ensures WinnerOk(c, s', l, s'.orchs[l])
    {
      assert s'.orchs[l] == s.orchs[l];
    }
    if forall l | l in s'.orchs :: !s'.orchs[l].entered {
      forall l | l in s.orchs
        ensures !s.orchs[l].entered
      {
        if l != k {
          assert s'.orchs[l] == s.orchs[l];
        }
      }
    }
  }

  /** A step of the winner. */
  lemma WinnerMoves(c: Config, s: State, s': State, k: nat, o: Orch)
    requires Inv(c, s) && k in s.orchs && s.orchs[k].entered
    requires s'.orchs == s.orchs[k := o] && o.entered && WinnerOk(c, s', k, o)
    requires |s'.reserves| <= 1 && |s'.mints| <= 1 && |s'.captures| <= 1
    ensures Inv(c, s')
  {
    assert s'.orchs[k].entered;
    forall l | l in s'.orchs && l != k
      ensures !s'.orchs[l].entered && OutsiderOk(c, s'.orchs[l])
    {
      assert s'.orchs[l] == s.orchs[l];
    }
  }

  /** The first AUTHN_STARTED update to take effect. */
  lemma FirstEnters(c: Config, s: State, k: nat, reply: Reply)
    requires Inv(c, s) && k in s.orchs && Doing(s.orchs[k].pc) == Update(AUTHN_STARTED) && Vaulted(c.txn)
    requires !UnderWay(s.row.status) && OutsiderOk(c, s.orchs[k])
    ensures Inv(c, WriteStatus(c, s, k, s.orchs[k], AUTHN_STARTED, reply))
  {
    var s' := WriteStatus(c, s, k, s.orchs[k], AUTHN_STARTED, reply);
    forall l | l in s.orchs
      ensures !s.orchs[l].entered
    {
      assert s.orchs[l].entered ==> WinnerOk(c, s, l, s.orchs[l]);
    }
    assert s'.orchs[k].entered && WinnerOk(c, s', k, s'.orchs[k]);
    forall l | l in s'.orchs && l != k
      ensures !s'.orchs[l].entered && OutsiderOk(c, s'.orchs[l])
    {
      assert s'.orchs[l] == s.orchs[l];
    }
  }

  /** A call of an unvaulted card fails the row. */
  lemma UnvaultedFails(c: Config, s: State, k: nat, reply: Reply)
    requires Inv(c, s) && k in s.orchs && Doing(s.orchs[k].pc) == Update(FAILED) && !s.orchs[k].entered
    ensures Inv(c, WriteStatus(c, s, k, s.orchs[k], FAILED, reply))
  {
    var s' := WriteStatus(c, s, k, s.orchs[k], FAILED, reply);
    assert OutsiderOk(c, s.orchs[k]);
    forall l | l in s.orchs
      ensures !s.orchs[l].entered
    {
      assert s.orchs[l].entered ==> WinnerOk(c, s, l, s.orchs[l]);
    }
    forall l | l in s'.orchs
      ensures !s'.orchs[l].entered && OutsiderOk(c, s'.orchs[l])
    {
      if l != k {
        assert s'.orchs[l] == s.orchs[l];
      }
    }
  }

  lemma OutsiderSteps(c: Config, s: State, k: nat, reply: Reply)
    requires Inv(c, s) && k in s.orchs && !s.orchs[k].entered && EntryHolds(s, Advance(k, reply))
    ensures Inv(c, AdvanceOrch(c, s, k, reply))
  {
    var o := s.orchs[k];
    assert OutsiderOk(c, o);
    var t := AdvanceOrch(c, s, k, reply);
    if t.row == s.row && t.history == s.history {
      OutsiderStill(c, s, k, reply);
      OutsiderMoves(c, s, k, t.orchs[k]);
    } else {
      OutsiderWrites(c, s, k, reply);
      if Doing(o.pc) == Update(FAILED) {
        UnvaultedFails(c, s, k, reply);
      } else {
        FirstEnters(c, s, k, reply);
      }
    }
  }

  /** A step of an outsider that leaves the row alone. */
  lemma OutsiderStill(c: Config, s: State, k: nat, reply: Reply)
    requires k in s.orchs && !s.orchs[k].entered && OutsiderOk(c, s.orchs[k])
    requires AdvanceOrch(c, s, k, reply).history == s.history
    ensures var t := AdvanceOrch(c, s, k, reply);
            k in t.orchs && !t.orchs[k].entered && OutsiderOk(c, t.orchs[k]) && t == WithOrch(s, k, t.orchs[k])
  {
    if s.orchs[k].pc.Update? || s.orchs[k].pc.Write? {
      OutsiderRefused(c, s, k, reply);
      hide AdvanceOrch;
    } else {
      assert s.orchs[k := s.orchs[k]] == s.orchs;
    }
  }

  lemma OutsiderRefused(c: Config, s: State, k: nat, reply: Reply)
    requires k in s.orchs && !s.orchs[k].entered && OutsiderOk(c, s.orchs[k])
    requires s.orchs[k].pc.Update? || s.orchs[k].pc.Write?
    requires AdvanceOrch(c, s, k, reply).history == s.history
    ensures var t := AdvanceOrch(c, s, k, reply);
            k in t.orchs && !t.orchs[k].entered && OutsiderOk(c, t.orchs[k]) && t == WithOrch(s, k, t.orchs[k])
  {
    hide Patched, ExtraFor;
    assert forall row :: WithRow(s, row).history != s.history;
  }

  /** And one that does not. */
  lemma OutsiderWrites(c: Config, s: State, k: nat, reply: Reply)
    requires k in s.orchs && !s.orchs[k].entered && OutsiderOk(c, s.orchs[k])
    requires AdvanceOrch(c, s, k, reply).history != s.history || AdvanceOrch(c, s, k, reply).row != s.row
    ensures var o := s.orchs[k];
            && (o.pc.Update? || o.pc.Write?) && Landed(reply)
            && AdvanceOrch(c, s, k, reply) == WriteStatus(c, s, k, o, o.pc.to, reply)
            && (o.pc.Update? ==> CanTransition(s.row.status, o.pc.to))
  {
    hide Patched, ExtraFor;
  }

  lemma WinnerStillOk(c: Config, s: State, k: nat, o: Orch, to: Status, reply: Reply)
    requires WinnerOk(c, s, k, o) && Doing(o.pc) == Update(to)
    ensures WinnerOk(c, WriteStatus(c, s, k, o, to, reply), k, Wrote(o, to, reply))
  {
  }

  lemma WinnerWrites(c: Config, s: State, k: nat, to: Status, reply: Reply)
    requires Inv(c, s) && k in s.orchs && s.orchs[k].entered && Doing(s.orchs[k].pc) == Update(to)
    ensures Inv(c, WriteStatus(c, s, k, s.orchs[k], to, reply))
  {
    var o := s.orchs[k];
    assert WinnerOk(c, s, k, o);
    WinnerStillOk(c, s, k, o, to, reply);
    hide WinnerOk;
    WinnerMoves(c, s, WriteStatus(c, s, k, o, to, reply), k, Wrote(o, to, reply));
  }

  /** A remote operation of the winner leaves the row alone, and happens once. */
  ghost predicate Worked(c: Config, s: State, k: nat, s': State) {
    && s'.row == s.row
    && k in s'.orchs && s'.orchs == s.orchs[k := s'.orchs[k]]
    && s'.orchs[k].entered && WinnerOk(c, s', k, s'.orchs[k])
    && |s'.reserves| <= 1 && |s'.mints| <= 1 && |s'.captures| <= 1
  }

  lemma WinnerReserves(c: Config, s: State, k: nat, o: Orch, reply: Reply)
    requires Inv(c, s) && o.entered && o.pc == Reserve && WinnerOk(c, s, k, o)
    ensures Worked(c, s, k, AdvanceReserve(s, k, o, reply))
  {
  }

  lemma WinnerMints(c: Config, s: State, k: nat, o: Orch, reply: Reply)
    requires Inv(c, s) && o.entered && o.pc == Mint && WinnerOk(c, s, k, o)
    ensures Worked(c, s, k, AdvanceMint(s, k, o, reply))
  {
  }

  lemma WinnerTokenises(c: Config, s: State, k: nat, o: Orch, reply: Reply)
    requires Inv(c, s) && o.entered && o.pc == Tokenise && WinnerOk(c, s, k, o)
    ensures Worked(c, s, k, AdvanceTokenise(s, k, o, reply))
  {
  }

  lemma WinnerCharges(c: Config, s: State, k: nat, o: Orch, reply: Reply)
    requires Inv(c, s) && o.entered && o.pc == Charge && WinnerOk(c, s, k, o) && o.paymentMethodId.Some?
    ensures Worked(c, s, k, AdvanceCharge(c, s, k, o, reply))
  {
  }

  /** The first half of an update, or either when it fails: the row stays, and so does the program's place in it. */
  lemma WinnerWaits(c: Config, s: State, k: nat, o: Orch, to: Status)
    requires WinnerOk(c, s, k, o) && Doing(o.pc) == Update(to)
    ensures forall why :: WinnerOk(c, WithOrch(s, k, UpdateThrew(o, to, why)), k, UpdateThrew(o, to, why))
    ensures CanTransition(s.row.status, to) ==> WinnerOk(c, WithOrch(s, k, o.(pc := Write(to))), k, o.(pc := Write(to)))
  {
  }

  lemma WinnerUpdates(c: Config, s: State, k: nat, to: Status, reply: Reply)
    requires Inv(c, s) && k in s.orchs && s.orchs[k].entered && Doing(s.orchs[k].pc) == Update(to)
    ensures Inv(c, AdvanceOrch(c, s, k, reply))
  {
    var o := s.orchs[k];
    assert WinnerOk(c, s, k, o);
    WinnerWrites(c, s, k, to, reply);
    WinnerWaits(c, s, k, o, to);
    hide Inv, WinnerOk, UpdateThrew, CanTransition;
    var s' := AdvanceOrch(c, s, k, reply);
    if s' == WithOrch(s, k, UpdateThrew(o, to, ILLEGAL)) {
      WinnerStays(c, s, k, UpdateThrew(o, to, ILLEGAL));
    } else if s' == WithOrch(s, k, UpdateThrew(o, to, DATABASE)) {
      WinnerStays(c, s, k, UpdateThrew(o, to, DATABASE));
    } else if s' == WithOrch(s, k, o.(pc := Write(to))) {
      WinnerStays(c, s, k, o.(pc := Write(to)));
    }
  }

  /** A step of the winner that only moves it. */
  lemma WinnerStays(c: Config, s: State, k: nat, o: Orch)
    requires Inv(c, s) && k in s.orchs && s.orchs[k].entered && o.entered && WinnerOk(c, WithOrch(s, k, o), k, o)
    ensures Inv(c, WithOrch(s, k, o))
  {
    hide WinnerOk;
    WinnerMoves(c, s, WithOrch(s, k, o), k, o);
  }

  lemma WinnerSteps(c: Config, s: State, k: nat, reply: Reply)
    requires Inv(c, s) && k in s.orchs && s.orchs[k].entered
    ensures Inv(c, AdvanceOrch(c, s, k, reply))
  {
    var o := s.orchs[k];
    assert WinnerOk(c, s, k, o);
    if o.pc.Update? || o.pc.Write? {
      WinnerUpdates(c, s, k, o.pc.to, reply);
    } else if o.pc == Reserve || o.pc == Mint || o.pc == Tokenise || (o.pc == Charge && o.paymentMethodId.Some?) {
      var s' := AdvanceOrch(c, s, k, reply);
      assert Worked(c, s, k, s') by {
        if o.pc == Reserve { WinnerReserves(c, s, k, o, reply); }
        if o.pc == Mint { WinnerMints(c, s, k, o, reply); }
        if o.pc == Tokenise { WinnerTokenises(c, s, k, o, reply); }
        if o.pc == Charge { WinnerCharges(c, s, k, o, reply); }
      }
      WinnerMoves(c, s, s', k, s'.orchs[k]);
    }
  }

  /** The invariant does not look at the clock, the counter, the history or the readers. */
  lemma EnvironmentKeeps(c: Config, s: State, s': State)
    requires Inv(c, s)
    requires s'.row == s.row && s'.orchs == s.orchs
    requires s'.reserves == s.reserves && s'.mints == s.mints && s'.captures == s.captures
    ensures Inv(c, s')
  {
    forall k | k in s'.orchs && s'.orchs[k].entered
      ensures WinnerOk(c, s', k, s'.orchs[k])
    {
      assert WinnerOk(c, s, k, s.orchs[k]);
    }
  }

  /** Either expiry write: it finds PENDING, so there is no winner yet, or finds nothing. */
  lemma ExpiryKeeps(c: Config, s: State)
    requires Inv(c, s)
    ensures Inv(c, WithMatched(s, ReadExpired(s.row)))
  {
    if s.row.status == PENDING {
      forall l | l in s.orchs
        ensures !s.orchs[l].entered
      {
        assert s.orchs[l].entered ==> WinnerOk(c, s, l, s.orchs[l]);
      }
    }
  }

  lemma ReaderSteps(c: Config, s: State, r: nat)
    requires Inv(c, s) && r in s.readers
    ensures Inv(c, AdvanceReader(c, s, r))
  {
    ExpiryKeeps(c, s);
    var t := if s.readers[r].AboutToExpire? then WithMatched(s, ReadExpired(s.row)) else s;
    EnvironmentKeeps(c, t, AdvanceReader(c, s, r));
  }

  lemma ApplyKeeps(c: Config, s: State, e: Event)
    requires Inv(c, s) && EntryHolds(s, e)
    ensures Inv(c, Apply(c, s, e))
  {
    match e
    case Arrive(k, credential) =>
      if k !in s.orchs {
        OutsiderMoves(c, s, k, Orch(Begin, credential, None, None, None, "", Threw, false));
      }
    case Advance(k, reply) =>
      if k in s.orchs {
        if s.orchs[k].entered {
          WinnerSteps(c, s, k, reply);
        } else {
          OutsiderSteps(c, s, k, reply);
        }
      }
    case AdvanceRead(r) => if r in s.readers { ReaderSteps(c, s, r); }
    case Sweep(now) => ExpiryKeeps(c, s);
    case _ => EnvironmentKeeps(c, s, Apply(c, s, e));
  }

  lemma {:induction false} RunKeeps(c: Config, s: State, events: seq<Event>)
    requires Inv(c, s) && EntriesHold(c, s, events)
    ensures Inv(c, Run(c, s, events))
    decreases |events|
  {
    if events != [] {
      hide Inv, EntryHolds, Apply;
      ApplyKeeps(c, s, events[0]);
      RunKeeps(c, Apply(c, s, events[0]), events[1..]);
    }
  }

  lemma RunInv(c: Config, atc: nat, clock: int, events: seq<Event>)
    requires EntriesHold(c, Init(atc, clock), events)
    ensures Inv(c, Run(c, Init(atc, clock), events))
  {
    RunKeeps(c, Init(atc, clock), events);
  }

  /**
   Single winner, at either granularity.  However many calls race and whether or not the
   provider honours idempotency keys, on every run in which no AUTHN_STARTED is written over a
   row under way: at most one call's AUTHN_STARTED takes effect, and the run as a whole makes
   at most one ATC reservation, one retrieval token and one capture, the first two by that
   call.  A call that did not win and has ended has thrown; one that reported COMPLETED left
   the row COMPLETED.
   */
  lemma SingleWinner(c: Config, atc: nat, clock: int, events: seq<Event>, k: nat, l: nat)
    requires EntriesHold(c, Init(atc, clock), events)
    ensures var s := Run(c, Init(atc, clock), events);
            && |s.reserves| <= 1 && |s.mints| <= 1 && |s.captures| <= 1
            && (k in s.orchs && l in s.orchs && s.orchs[k].entered && s.orchs[l].entered ==> k == l)
            && (k in s.orchs && s.orchs[k].entered ==>
                  (forall x | x in s.reserves :: x.0 == k) && (forall x | x in s.mints :: x == k))
            && (k in s.orchs && !s.orchs[k].entered && s.orchs[k].pc.Ended? ==> s.orchs[k].pc.outcome == Threw)
            && (k in s.orchs && s.orchs[k].pc == Ended(ReturnedCompleted) ==> s.row.status == COMPLETED)
  {
    RunInv(c, atc, clock, events);
    var s := Run(c, Init(atc, clock), events);
    if k in s.orchs {
      assert if s.orchs[k].entered then WinnerOk(c, s, k, s.orchs[k]) else OutsiderOk(c, s.orchs[k]);
    }
  }

  ghost predicate OneWinner(s: State) {
    forall k, l | k in s.orchs && l in s.orchs && s.orchs[k].entered && s.orchs[l].entered :: k == l
  }

  lemma {:induction false} EnteredStays(c: Config, s: State, events: seq<Event>, k: nat)
    requires k in s.orchs && s.orchs[k].entered
    ensures var t := Run(c, s, events); k in t.orchs && t.orchs[k].entered
    decreases |events|
  {
    if events != [] {
      var e := events[0];
      if e.Advance? && e.k in s.orchs {
        OthersStand(c, s, e.k, e.reply);
      }
      hide AdvanceOrch;
      EnteredStays(c, Apply(c, s, e), events[1..], k);
    }
  }

  /** A write over a row under way makes a second winner. */
  lemma SecondEnters(c: Config, s: State, e: Event) returns (k: nat, l: nat)
    requires Inv(c, s) && !EntryHolds(s, e)
    ensures var t := Apply(c, s, e);
            l != k && l in t.orchs && t.orchs[l].entered && k in t.orchs && t.orchs[k].entered
  {
    k := e.k;
    assert !s.orchs[k].entered by { assert s.orchs[k].entered ==> WinnerOk(c, s, k, s.orchs[k]); }
    assert OutsiderOk(c, s.orchs[k]);
    l :| l in s.orchs && s.orchs[l].entered;
    hide Inv;
    OthersStand(c, s, k, e.reply);
  }

  lemma {:induction false} OvertakenRun(c: Config, s: State, events: seq<Event>)
    requires Inv(c, s) && !EntriesHold(c, s, events)
    ensures !OneWinner(Run(c, s, events))
    decreases |events|
  {
    hide Inv, EntryHolds, Apply;
    var e, t := events[0], Apply(c, s, events[0]);
    if EntryHolds(s, e) {
      ApplyKeeps(c, s, e);
      OvertakenRun(c, t, events[1..]);
    } else {
      var k, l := SecondEnters(c, s, e);
      EnteredStays(c, t, events[1..], l);
      EnteredStays(c, t, events[1..], k);
    }
  }

  /**
   Exactly when there is one winner, run by run at either granularity: at most one call gets
   past the first update if and only if none is written over a row that is under way.
   */
  lemma OneWinnerIffEntriesHold(c: Config, atc: nat, clock: int, events: seq<Event>)
    ensures OneWinner(Run(c, Init(atc, clock), events)) <==> EntriesHold(c, Init(atc, clock), events)
  {
    if EntriesHold(c, Init(atc, clock), events) {
      RunInv(c, atc, clock, events);
    } else {
      OvertakenRun(c, Init(atc, clock), events);
    }
  }

  /** A call past its first update, and one of a vaulted card that is not: which guards can fail. */
  lemma FirstGuardIsEnough(c: Config, s: State, e: Event)
    requires Vaulted(c.txn) && Inv(c, s)
    ensures FirstGuardHolds(s, e) <==> GuardHolds(s, e)
  {
    if e.Advance? && e.k in s.orchs && s.orchs[e.k].pc.Write? {
      assert if s.orchs[e.k].entered then WinnerOk(c, s, e.k, s.orchs[e.k]) else OutsiderOk(c, s.orchs[e.k]);
    }
  }

  lemma {:induction false} FirstGuardsRun(c: Config, s: State, events: seq<Event>)
    requires Vaulted(c.txn) && Inv(c, s)
    ensures FirstGuardsHold(c, s, events) <==> GuardsHold(c, s, events)
    decreases |events|
  {
    if events != [] {
      FirstGuardIsEnough(c, s, events[0]);
      if FirstGuardHolds(s, events[0]) {
        assert EntryHolds(s, events[0]);
        ApplyKeeps(c, s, events[0]);
        FirstGuardsRun(c, Apply(c, s, events[0]), events[1..]);
      }
    }
  }

  /**
   Of a vaulted card's row only the first update can be overtaken first: no update of a run is
   written over a status its guard would not let through exactly if no AUTHN_STARTED is.  One
   conditional update, of that one call, would do for them all.
   */
  lemma OnlyTheFirstGuardCounts(c: Config, atc: nat, clock: int, events: seq<Event>)
    requires Vaulted(c.txn)
    ensures GuardsHold(c, Init(atc, clock), events) <==> FirstGuardsHold(c, Init(atc, clock), events)
  {
    FirstGuardsRun(c, Init(atc, clock), events);
  }

  /**
   COMPLETED means charged exactly once, with the payment method and under the provider id the
   row stores, even with a provider that ignores idempotency keys.
   */
  lemma CompletedMeansOneCapture(c: Config, atc: nat, clock: int, events: seq<Event>)
    requires EntriesHold(c, Init(atc, clock), events)
    ensures var s := Run(c, Init(atc, clock), events);
            s.row.status == COMPLETED ==>
              && |s.captures| == 1 && s.row.providerTxnId == Some(s.captures[0].txnId)
              && s.row.paymentMethodId == Some(s.captures[0].paymentMethodId)
  {
    hide Inv, PaymentBooks.Inv, Run, EntriesHold;
    RunInv(c, atc, clock, events);
    PaymentBooks.RunInv(c, atc, clock, events);
    var s := Run(c, Init(atc, clock), events);
    if s.row.status == COMPLETED {
      CompletedIsOnBooks(c, s);
      WinnersMethod(c, s);
      assert exists x :: x in s.captures && s.row.providerTxnId == Some(x.txnId);
    }
  }

  lemma CompletedIsOnBooks(c: Config, s: State)
    requires PaymentBooks.Inv(c, s) && s.row.status == COMPLETED
    ensures exists x :: x in s.captures && s.row.providerTxnId == Some(x.txnId)
  {
  }

  /** Whatever was captured was captured with the row's payment method. */
  lemma WinnersMethod(c: Config, s: State)
    requires Inv(c, s)
    ensures forall x | x in s.captures :: s.row.paymentMethodId == Some(x.paymentMethodId)
    ensures |s.captures| <= 1
  {
    if s.captures != [] {
      var k :| k in s.orchs && s.orchs[k].entered;
      assert WinnerOk(c, s, k, s.orchs[k]);
    }
  }

  // --- losers, on every run -------------------------------------------------------------------

  /** An outsider stays one, or enters. */
  lemma OutsiderAdvances(c: Config, s: State, k: nat, reply: Reply)
    requires k in s.orchs && !s.orchs[k].entered && OutsiderOk(c, s.orchs[k])
    ensures var o := AdvanceOrch(c, s, k, reply).orchs[k]; o.entered || OutsiderOk(c, o)
  {
    if AdvanceOrch(c, s, k, reply).history == s.history {
      OutsiderStill(c, s, k, reply);
    } else {
      OutsiderWrites(c, s, k, reply);
      hide AdvanceOrch, Patched, ExtraFor, CanTransition;
    }
  }

  lemma {:induction false} OutsidersRun(c: Config, s: State, events: seq<Event>)
    requires OutsidersOk(c, s)
    ensures OutsidersOk(c, Run(c, s, events))
    decreases |events|
  {
    if events != [] {
      hide AdvanceOrch, OutsiderOk;
      var e := events[0];
      if e.Advance? && e.k in s.orchs {
        OthersStand(c, s, e.k, e.reply);
        if !s.orchs[e.k].entered {
          OutsiderAdvances(c, s, e.k, e.reply);
        }
      }
      assert OutsidersOk(c, Apply(c, s, e)) by {
        if e.Arrive? { NewcomerIsOutside(c, e.credential); }
      }
      OutsidersRun(c, Apply(c, s, e), events[1..]);
    }
  }

  lemma NewcomerIsOutside(c: Config, credential: string)
    ensures OutsiderOk(c, Orch(Begin, credential, None, None, None, "", Threw, false))
  {
  }

  /**
   A loser changes nothing, at either granularity: in any reachable state whose row has left
   PENDING, a step of a call that has not won, if it is not the write of an overtaken update,
   moves that call and nothing else.  Its throw is outside the try, so with a vaulted card it
   never reaches fail().
   */
  lemma LoserChangesNothing(c: Config, atc: nat, clock: int, events: seq<Event>, k: nat, reply: Reply)
    requires Vaulted(c.txn) && GuardHolds(Run(c, Init(atc, clock), events), Advance(k, reply))
    ensures var s := Run(c, Init(atc, clock), events);
            s.row.status != PENDING && k in s.orchs && !s.orchs[k].entered ==>
              var s' := Apply(c, s, Advance(k, reply));
              && k in s'.orchs && s' == s.(orchs := s.orchs[k := s'.orchs[k]])
              && !s'.orchs[k].entered && s'.orchs[k].pc in {Update(AUTHN_STARTED), Ended(Threw)}
  {
    OutsidersRun(c, Init(atc, clock), events);
    var s := Run(c, Init(atc, clock), events);
    if s.row.status != PENDING && k in s.orchs && !s.orchs[k].entered {
      LoserStep(c, s, k, reply);
    }
  }

  lemma LoserStep(c: Config, s: State, k: nat, reply: Reply)
    requires Vaulted(c.txn) && s.row.status != PENDING && GuardHolds(s, Advance(k, reply))
    requires k in s.orchs && !s.orchs[k].entered && OutsiderOk(c, s.orchs[k])
    ensures var s' := Apply(c, s, Advance(k, reply));
            && k in s'.orchs && s' == s.(orchs := s.orchs[k := s'.orchs[k]])
            && !s'.orchs[k].entered && s'.orchs[k].pc in {Update(AUTHN_STARTED), Ended(Threw)}
  {
    hide Patched, ExtraFor;
    assert !CanTransition(s.row.status, AUTHN_STARTED);
    assert s.orchs[k := s.orchs[k]] == s.orchs;
  }

  // --- histories -------------------------------------------------------------------------------

  /**
   Terminal rows never change while no update is overtaken: whatever happens after any run that
   left one, no column is rewritten.
   */
  lemma TerminalRowsStay(c: Config, atc: nat, clock: int, before: seq<Event>, after: seq<Event>)
    requires var s := Run(c, Init(atc, clock), before); IsTerminal(s.row.status) && GuardsHold(c, s, after)
    ensures var s, t := Run(c, Init(atc, clock), before), Run(c, Init(atc, clock), before + after);
            t.row == s.row && t.history == s.history
  {
    RunAppend(c, Init(atc, clock), before, after);
    TerminalRowStaysIffGuardsHold(c, Run(c, Init(atc, clock), before), after);
  }

  /**
   Every status history in which no update is overtaken is a path of the table from PENDING,
   although both expiry writes bypass assertTransition; it makes at most six changes; and a row
   that ends EXPIRED never had a cryptogram, an ATC, a retrieval token or a charge.
   */
  lemma HistoriesArePaths(c: Config, atc: nat, clock: int, events: seq<Event>)
    requires GuardsHold(c, Init(atc, clock), events)
    ensures var s := Run(c, Init(atc, clock), events);
            && IsPath(s.history) && s.history[0] == PENDING && s.history[|s.history| - 1] == s.row.status
            && |s.history| <= 7
            && (s.row.status == EXPIRED ==> Untouched(s))
  {
    HistoryIsPathIffGuardsHold(c, Init(atc, clock), events);
    HistoryIsKept(c, Init(atc, clock), events);
    ExpiredRowsAreUntouched(c, atc, clock, events);
    PathsAreShort(Run(c, Init(atc, clock), events).history);
  }
}
