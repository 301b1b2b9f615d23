/**
 How a call fails (services/pay/src/orchestration/post-auth.ts:38-47, 135-150): what it is told,
 and what the row records, for each operation that can go wrong, at either granularity.
 */
module PaymentFailures {
  import opened Prelude
  import opened StateMachine
  import opened PaymentProtocol
  import PaymentBooks
  import opened PaymentRaces
  import opened PaymentCharges

  /** The card was never registered with the vault. */
  predicate NeverVaulted(t: Txn) {
    t.vaultEntryId == None || t.vaultEntryId == Some("") || t.panBin == None || t.panBin == Some("")
  }

  lemma NeverVaultedIff(t: Txn)
    ensures NeverVaulted(t) <==> !Vaulted(t)
  {
  }

  /** Three answers to one call, and nothing else; an ended call makes no use of those left over. */
  function Three(k: nat, r0: Reply, r1: Reply, r2: Reply): seq<Event> {
    [Advance(k, r0), Advance(k, r1), Advance(k, r2)]
  }

  lemma RunThree(c: Config, s: State, k: nat, r0: Reply, r1: Reply, r2: Reply)
    ensures Run(c, s, Three(k, r0, r1, r2))
            == Apply(c, Apply(c, Apply(c, s, Advance(k, r0)), Advance(k, r1)), Advance(k, r2))
  {
    hide Apply;
    var e := Three(k, r0, r1, r2);
    var s1 := Apply(c, s, e[0]);
    var s2 := Apply(c, s1, e[1]);
    assert e[1..] == [e[1], e[2]] && e[1..][1..] == [e[2]] && [e[2]][1..] == [];
    assert Run(c, s2, [e[2]]) == Run(c, Apply(c, s2, e[2]), []);
    assert Run(c, s1, [e[1], e[2]]) == Run(c, s2, [e[2]]);
  }

  // --- fail() ----------------------------------------------------------------------------------

  /** fail()'s own update takes effect: the row is not terminal, and its statements are answered. */
  predicate Records(c: Config, status: Status, r1: Reply, r2: Reply) {
    status !in {COMPLETED, FAILED, EXPIRED} && if c.atomic then Landed(r1) else r1.Good? && Landed(r2)
  }

  /** Nothing but the row, its history and call k have changed. */
  predicate OnlyRow(s: State, t: State, k: nat) {
    && k in t.orchs && t == s.(row := t.row, history := t.history, orchs := s.orchs[k := t.orchs[k]])
  }

  /** The row with the failure in it. */
  function Failed(row: Row, reason: string, now: int): Row {
    row.(status := FAILED, failureReason := Some(reason), failedAt := Some(now))
  }

  lemma FailReads(c: Config, s: State, k: nat, r1: Reply)
    requires k in s.orchs && s.orchs[k].pc == Update(FAILED)
    ensures var o, t := s.orchs[k], Apply(c, s, Advance(k, r1));
            && OnlyRow(s, t, k)
            && if c.atomic then t.orchs[k].pc == Ended(o.verdict)
                                && t.row == if Records(c, s.row.status, r1, r1) then Failed(s.row, o.reason, s.clock)
                                            else s.row
               else && t.row == s.row
                    && t.orchs[k] == o.(pc := if Records(c, s.row.status, r1, Good("")) then Write(FAILED)
                                              else Ended(o.verdict))
  {
    assert CanTransition(s.row.status, FAILED) <==> s.row.status !in {COMPLETED, FAILED, EXPIRED};
    hide CanTransition;
  }

  lemma FailWrites(c: Config, s: State, k: nat, r2: Reply)
    requires k in s.orchs && s.orchs[k].pc == Write(FAILED)
    ensures var o, t := s.orchs[k], Apply(c, s, Advance(k, r2));
            && OnlyRow(s, t, k) && t.orchs[k].pc == Ended(o.verdict)
            && t.row == if Landed(r2) then Failed(s.row, o.reason, s.clock) else s.row
  {
  }

  lemma EndedIsDone(c: Config, s: State, k: nat, reply: Reply)
    requires k in s.orchs && s.orchs[k].pc.Ended?
    ensures Apply(c, s, Advance(k, reply)) == s
  {
  }

  /** A call on its way to fail(): whatever its update's statements answer, the call ends as it would have. */
  lemma FailEnds(c: Config, s: State, k: nat, r1: Reply, r2: Reply)
    requires k in s.orchs && s.orchs[k].pc == Update(FAILED)
    ensures var t := Apply(c, Apply(c, s, Advance(k, r1)), Advance(k, r2));
            && OnlyRow(s, t, k) && t.orchs[k].pc == Ended(s.orchs[k].verdict)
            && t.row == if Records(c, s.row.status, r1, r2) then Failed(s.row, s.orchs[k].reason, s.clock) else s.row
  {
    FailReads(c, s, k, r1);
    hide Apply, Failed;
    var s1 := Apply(c, s, Advance(k, r1));
    if s1.orchs[k].pc == Write(FAILED) {
      FailWrites(c, s1, k, r2);
      var t := Apply(c, s1, Advance(k, r2));
      assert s.orchs[k := s1.orchs[k]][k := t.orchs[k]] == s.orchs[k := t.orchs[k]];
    } else {
      EndedIsDone(c, s1, k, r2);
    }
  }

  // --- a card without a vault entry --------------------------------------------------------------

  /**
   A call for such a card throws card_not_vaulted; and if its statements are answered it first
   fails the row for that reason, having asked nobody for anything.
   */
  lemma UnvaultedCallFailsTheRow(c: Config, s: State, k: nat, credential: string, r1: Reply, r2: Reply)
    requires NeverVaulted(c.txn) && k !in s.orchs && s.row.status == PENDING
    ensures var t := Run(c, s, [Arrive(k, credential)] + Three(k, Good(""), r1, r2));
            && OnlyRow(s, t, k) && t.orchs[k].pc == Ended(Threw)
            && (r1.Good? && r2.Good? ==>
                  t.row == s.row.(status := FAILED, failureReason := Some("card_not_vaulted"),
                                  failedAt := Some(s.clock)))
  {
    NeverVaultedIff(c.txn);
    var s0 := Apply(c, s, Arrive(k, credential));
    RunAppend(c, s, [Arrive(k, credential)], Three(k, Good(""), r1, r2));
    assert Run(c, s, [Arrive(k, credential)]) == Run(c, s0, [Arrive(k, credential)][1..]);
    RunThree(c, s0, k, Good(""), r1, r2);
    var s1 := Apply(c, s0, Advance(k, Good("")));
    assert s1.orchs[k].pc == Update(FAILED) && s1.orchs[k].reason == "card_not_vaulted" && s1.orchs[k].verdict == Threw;
    FailEnds(c, s1, k, r1, r2);
    hide Apply;
    var t := Apply(c, Apply(c, s1, Advance(k, r1)), Advance(k, r2));
    assert s1.orchs[k := t.orchs[k]] == s.orchs[k := t.orchs[k]];
  }

  ghost predicate UnvaultedOk(s: State) {
    && PaymentBooks.Idle(s) && s.row.status in {PENDING, FAILED, EXPIRED}
    && (s.row.status == FAILED ==> s.row.failureReason == Some("card_not_vaulted") && s.row.failedAt.Some?)
    && forall k | k in s.orchs :: UnvaultedCall(s.orchs[k])
  }

  predicate UnvaultedCall(o: Orch) {
    || o.pc == Begin || o.pc == Ended(Threw)
    || ((o.pc == Update(FAILED) || o.pc == Write(FAILED)) && o.reason == "card_not_vaulted" && o.verdict == Threw)
  }

  lemma UnvaultedAdvance(c: Config, s: State, k: nat, reply: Reply)
    requires !Vaulted(c.txn) && UnvaultedOk(s) && k in s.orchs
    ensures UnvaultedOk(AdvanceOrch(c, s, k, reply))
  {
    assert UnvaultedCall(s.orchs[k]);
    if s.orchs[k].pc == Begin {
      assert UnvaultedCall(AdvanceOrch(c, s, k, reply).orchs[k]);
    } else if s.orchs[k].pc.Update? || s.orchs[k].pc.Write? {
      UnvaultedUpdate(c, s, k, reply);
    }
  }

  lemma UnvaultedUpdate(c: Config, s: State, k: nat, reply: Reply)
    requires UnvaultedOk(s) && k in s.orchs && (s.orchs[k].pc.Update? || s.orchs[k].pc.Write?)
    ensures UnvaultedOk(AdvanceOrch(c, s, k, reply))
  {
    var o := s.orchs[k];
    assert UnvaultedCall(o);
    var t := Apply(c, s, Advance(k, reply));
    if o.pc.Update? {
      FailReads(c, s, k, reply);
    } else {
      FailWrites(c, s, k, reply);
    }
    hide Apply, AdvanceOrch, Records;
    assert t == AdvanceOrch(c, s, k, reply) by { AdvanceApplies(c, s, k, reply); }
    assert UnvaultedCall(t.orchs[k]);
  }

  lemma AdvanceApplies(c: Config, s: State, k: nat, reply: Reply)
    requires k in s.orchs
    ensures Apply(c, s, Advance(k, reply)) == AdvanceOrch(c, s, k, reply)
  {
  }

  lemma UnvaultedStep(c: Config, s: State, e: Event)
    requires !Vaulted(c.txn) && UnvaultedOk(s)
    ensures UnvaultedOk(Apply(c, s, e))
  {
    if e.Advance? && e.k in s.orchs {
      UnvaultedAdvance(c, s, e.k, e.reply);
    }
    hide AdvanceOrch;
  }

  lemma {:induction false} UnvaultedRun(c: Config, s: State, events: seq<Event>)
    requires !Vaulted(c.txn) && UnvaultedOk(s)
    ensures UnvaultedOk(Run(c, s, events))
    decreases |events|
  {
    hide UnvaultedOk, Apply;
    if events != [] {
      UnvaultedStep(c, s, events[0]);
      UnvaultedRun(c, Apply(c, s, events[0]), events[1..]);
    }
  }

  /**
   And over every run, with any number of calls: nothing is ever reserved, minted or captured for
   such a card, the row is only ever pending, expired, or failed for that one reason, and every
   call that ends has thrown.
   */
  lemma UnvaultedIsNeverCharged(c: Config, atc: nat, clock: int, events: seq<Event>)
    requires NeverVaulted(c.txn)
    ensures var s := Run(c, Init(atc, clock), events);
            && s.reserves == [] && s.mints == [] && s.captures == []
            && s.row.status in {PENDING, FAILED, EXPIRED}
            && (s.row.status == FAILED ==> s.row.failureReason == Some("card_not_vaulted"))
            && forall k | k in s.orchs && s.orchs[k].pc.Ended? :: s.orchs[k].pc == Ended(Threw)
  {
    NeverVaultedIff(c.txn);
    UnvaultedRun(c, Init(atc, clock), events);
    var s := Run(c, Init(atc, clock), events);
    forall k | k in s.orchs && s.orchs[k].pc.Ended?
      ensures s.orchs[k].pc == Ended(Threw)
    {
      assert UnvaultedCall(s.orchs[k]);
    }
  }

  // --- before the try ------------------------------------------------------------------------------

  /** What goes wrong before the try block is thrown, and recorded nowhere: the row is as it was. */
  lemma BeforeTheTry(c: Config, s: State, k: nat, reply: Reply)
    requires k in s.orchs && !Landed(reply)
    requires var pc := s.orchs[k].pc;
             pc == Begin || ((pc.Update? || pc.Write?) && pc.to in {AUTHN_STARTED, AUTHN_COMPLETE})
    ensures var t := Apply(c, s, Advance(k, reply));
            k in t.orchs && t.orchs[k].pc == Ended(Threw) && t == s.(orchs := s.orchs[k := t.orchs[k]])
  {
  }

  // --- the remote operations -----------------------------------------------------------------------

  predicate Remote(pc: Pc) { pc == Reserve || pc == Mint || pc == Tokenise || pc == Charge }

  /** Why the row says it failed, when an operation of the try block does. */
  function Why(pc: Pc, reply: Reply): string {
    if pc == Reserve then (if reply.Refused? then "arqc_self_validation_failed" else "palisade_unavailable")
    else if pc == Mint then "vault_unavailable"
    else if pc == Charge && reply.Refused? then "provider_charge_failed"
    else "provider_unavailable"
  }

  /** A declined charge is an answer, and so is what the caller gets; all else is thrown. */
  function Told(pc: Pc, reply: Reply): Outcome {
    if pc == Charge && reply.Refused? then ReturnedFailed else Threw
  }

  lemma RemoteFails(c: Config, s: State, k: nat, reply: Reply)
    requires k in s.orchs && Remote(s.orchs[k].pc) && s.orchs[k].verdict == Threw && !reply.Good?
    requires s.orchs[k].pc == Charge ==> s.orchs[k].paymentMethodId.Some?
    ensures var o, t := s.orchs[k], Apply(c, s, Advance(k, reply));
            && k in t.orchs && t.orchs[k].pc == Update(FAILED)
            && t.orchs[k].reason == Why(o.pc, reply) && t.orchs[k].verdict == Told(o.pc, reply)
            && t.row == s.row && t.clock == s.clock
            && t.reserves == s.reserves + (if o.pc == Reserve && !reply.Broken? then [(k, s.atc + 1)] else [])
            && t.mints == s.mints + (if o.pc == Mint && reply.Lost? then [k] else [])
            && (!(o.pc == Charge && reply.Lost?) ==> t.captures == s.captures)
  {
    hide Charged;
  }

  /**
   Whatever else is going on: when a remote operation of the try block does not succeed, the call
   is told so, whether fail() manages to record it or not; and if the row is not terminal and
   fail()'s statements are answered, it is FAILED, for that operation's reason, at that time, its
   other columns as they were.
   */
  lemma FailureIsRecorded(c: Config, s: State, k: nat, reply: Reply, r1: Reply, r2: Reply)
    requires k in s.orchs && Remote(s.orchs[k].pc) && s.orchs[k].verdict == Threw && !reply.Good?
    requires s.orchs[k].pc == Charge ==> s.orchs[k].paymentMethodId.Some?
    ensures var pc, t := s.orchs[k].pc, Run(c, s, Three(k, reply, r1, r2));
            && k in t.orchs && t.orchs[k].pc == Ended(Told(pc, reply))
            && t.row == (if Records(c, s.row.status, r1, r2)
                         then s.row.(status := FAILED, failureReason := Some(Why(pc, reply)), failedAt := Some(s.clock))
                         else s.row)
            && t.reserves == s.reserves + (if pc == Reserve && !reply.Broken? then [(k, s.atc + 1)] else [])
            && t.mints == s.mints + (if pc == Mint && reply.Lost? then [k] else [])
            && (!(pc == Charge && reply.Lost?) ==> t.captures == s.captures)
  {
    RunThree(c, s, k, reply, r1, r2);
    RemoteFails(c, s, k, reply);
    var s1 := Apply(c, s, Advance(k, reply));
    FailEnds(c, s1, k, r1, r2);
    hide Apply, Run, Records;
  }

  // --- the updates between them ------------------------------------------------------------------------

  /** An update of the try block throws: the database, or the transition table. */
  predicate UpdateFails(c: Config, s: State, pc: Pc, reply: Reply) {
    && (pc.Update? || pc.Write?) && pc.to in {ARQC_VALID, VAULT_RETRIEVED, STRIPE_CHARGED, COMPLETED}
    && if pc.Update? && !c.atomic then !reply.Good? || !CanTransition(s.row.status, pc.to)
       else !Landed(reply) || (pc.Update? && !CanTransition(s.row.status, pc.to))
  }

  function WhyUpdate(c: Config, s: State, pc: Pc, reply: Reply): string {
    if pc.Update? && (c.atomic || reply.Good?) && !CanTransition(s.row.status, pc.to) then "illegal_transition"
    else "database_unavailable"
  }

  lemma UpdateThrows(c: Config, s: State, k: nat, reply: Reply)
    requires k in s.orchs && UpdateFails(c, s, s.orchs[k].pc, reply)
    requires s.orchs[k].pc.Update? || s.orchs[k].pc.Write?
    ensures var pc, t := s.orchs[k].pc, Apply(c, s, Advance(k, reply));
            && OnlyRow(s, t, k) && t.row == s.row
            && t.orchs[k].pc == Update(FAILED) && t.orchs[k].reason == WhyUpdate(c, s, pc, reply)
            && t.orchs[k].verdict == Threw
  {
    hide CanTransition;
  }

  /** The same of the updates in the try block: the call throws, and the row says why. */
  lemma UpdateFailureIsRecorded(c: Config, s: State, k: nat, reply: Reply, r1: Reply, r2: Reply)
    requires k in s.orchs && (s.orchs[k].pc.Update? || s.orchs[k].pc.Write?) && UpdateFails(c, s, s.orchs[k].pc, reply)
    ensures var pc, t := s.orchs[k].pc, Run(c, s, Three(k, reply, r1, r2));
            && OnlyRow(s, t, k) && t.orchs[k].pc == Ended(Threw)
            && t.row == if Records(c, s.row.status, r1, r2)
                        then s.row.(status := FAILED, failureReason := Some(WhyUpdate(c, s, pc, reply)),
                                    failedAt := Some(s.clock))
                        else s.row
  {
    RunThree(c, s, k, reply, r1, r2);
    UpdateThrows(c, s, k, reply);
    var s1 := Apply(c, s, Advance(k, reply));
    FailEnds(c, s1, k, r1, r2);
    hide Apply, Run, Records, WhyUpdate;
    var t := Apply(c, Apply(c, s1, Advance(k, r1)), Advance(k, r2));
    assert s1.orchs[k := t.orchs[k]] == s.orchs[k := t.orchs[k]];
  }

  /** An update of the try block takes effect, and its answer is lost. */
  lemma LostUpdateWrites(c: Config, s: State, k: nat, id: string)
    requires k in s.orchs && (s.orchs[k].pc.Write? || (c.atomic && s.orchs[k].pc.Update?))
    requires s.orchs[k].pc.to in {ARQC_VALID, VAULT_RETRIEVED, STRIPE_CHARGED, COMPLETED}
    requires s.orchs[k].pc.Update? ==> CanTransition(s.row.status, s.orchs[k].pc.to)
    ensures var pc, t := s.orchs[k].pc, Apply(c, s, Advance(k, Lost(id)));
            && OnlyRow(s, t, k) && t.row.status == pc.to
            && t.orchs[k].pc == Update(FAILED) && t.orchs[k].reason == "database_unavailable"
            && t.orchs[k].verdict == Threw
  {
    hide CanTransition, ExtraFor;
  }

  /**
   Then the call throws, and fail() overwrites the new status, unless that is COMPLETED: such a
   row stays COMPLETED, although the caller was told of a failure.
   */
  lemma LostUpdateIsOverwritten(c: Config, s: State, k: nat, id: string, r1: Reply, r2: Reply)
    requires k in s.orchs && (s.orchs[k].pc.Write? || (c.atomic && s.orchs[k].pc.Update?))
    requires s.orchs[k].pc.to in {ARQC_VALID, VAULT_RETRIEVED, STRIPE_CHARGED, COMPLETED}
    requires s.orchs[k].pc.Update? ==> CanTransition(s.row.status, s.orchs[k].pc.to)
    ensures var to, t := s.orchs[k].pc.to, Run(c, s, Three(k, Lost(id), r1, r2));
            var row := Apply(c, s, Advance(k, Lost(id))).row;
            && OnlyRow(s, t, k) && t.orchs[k].pc == Ended(Threw) && row.status == to
            && t.row == if Records(c, to, r1, r2)
                        then row.(status := FAILED, failureReason := Some("database_unavailable"),
                                  failedAt := Some(s.clock))
                        else row
    ensures !Records(c, COMPLETED, r1, r2)
  {
    RunThree(c, s, k, Lost(id), r1, r2);
    LostUpdateWrites(c, s, k, id);
    var s1 := Apply(c, s, Advance(k, Lost(id)));
    FailEnds(c, s1, k, r1, r2);
    hide Apply, Run;
    var t := Apply(c, Apply(c, s1, Advance(k, r1)), Advance(k, r2));
    assert s1.orchs[k := t.orchs[k]] == s.orchs[k := t.orchs[k]];
  }

  // --- a lone call, up to what goes wrong ----------------------------------------------------------------

  /** The columns that a call's own earlier updates have filled, by the operation it has come to. */
  function RowAt(c: Config, credential: string, n: nat, pm: string, pc: Pc): Row {
    var started := NewRow.(status := AUTHN_COMPLETE, usedCredentialId := Some(credential));
    var signed := started.(status := ARQC_VALID, arqc := Some(c.cryptogram(n + 1)), atcUsed := Some(n + 1));
    if pc == Reserve then started
    else if pc == Mint || pc == Tokenise then signed
    else signed.(status := VAULT_RETRIEVED, providerName := Some(c.providerName), paymentMethodId := Some(pm))
  }

  lemma LoneCallReaches(c: Config, credential: string, n: nat, pm: string, pc: Pc)
    returns (events: seq<Event>, s: State)
    requires Vaulted(c.txn) && Remote(pc)
    ensures Run(c, Init(n, c.txn.expiresAt), events) == s
    ensures 0 in s.orchs && s.orchs[0].pc == pc && s.orchs[0].verdict == Threw
    ensures pc == Charge ==> s.orchs[0].paymentMethodId == Some(pm)
    ensures s.row == RowAt(c, credential, n, pm, pc) && s.captures == [] && s.clock == c.txn.expiresAt
  {
    var s0 := Init(n, c.txn.expiresAt);
    if pc == Reserve {
      events, s := AloneToReserve(c, s0, credential);
    } else if pc == Charge {
      events, s := AloneToCharge(c, s0, credential, n, pm);
    } else {
      events, s := AloneToMint(c, s0, credential, n);
      if pc == Tokenise {
        events, s := Then(c, s0, events, s, Advance(0, Good("")));
      }
    }
  }

  /**
   A lone call of which one remote operation fails, every statement being answered: the row is
   FAILED for that operation's reason, with the columns of the updates before it and no others,
   and nothing was captured unless a charge's answer was lost.
   */
  lemma LoneCallFails(c: Config, credential: string, n: nat, pm: string, pc: Pc, reply: Reply)
    returns (events: seq<Event>)
    requires Vaulted(c.txn) && Remote(pc) && !reply.Good?
    ensures var t := Run(c, Init(n, c.txn.expiresAt), events);
            && 0 in t.orchs && t.orchs[0].pc == Ended(Told(pc, reply))
            && t.row == RowAt(c, credential, n, pm, pc).(status := FAILED, failureReason := Some(Why(pc, reply)),
                                                         failedAt := Some(c.txn.expiresAt))
            && (!(pc == Charge && reply.Lost?) ==> t.captures == [])
  {
    var s0 := Init(n, c.txn.expiresAt);
    var before, s := LoneCallReaches(c, credential, n, pm, pc);
    FailureIsRecorded(c, s, 0, reply, Good(""), Good(""));
    RunAppend(c, s0, before, Three(0, reply, Good(""), Good("")));
    events := before + Three(0, reply, Good(""), Good(""));
  }
}
