/**
 When a row is expired, and with what (packages/retention/src/purge.ts:30-42,
 services/pay/src/transactions/transaction.service.ts:109-126).
 */
module PaymentExpiry {
  import opened Prelude
  import opened StateMachine
  import opened PaymentProtocol
  import PaymentBooks

  /** Nobody expires a row, or is about to, before its time. */
  ghost predicate InTime(c: Config, s: State) {
    && (s.row.status == EXPIRED ==>
          c.txn.expiresAt < s.clock && s.row.failureReason == Some("transaction_ttl_elapsed"))
    && forall r | r in s.readers && s.readers[r].AboutToExpire? :: c.txn.expiresAt < s.readers[r].now <= s.clock
  }

  /** A call that writes the row never writes EXPIRED. */
  lemma CallsNeverExpire(c: Config, s: State, k: nat, reply: Reply)
    requires k in s.orchs && PaymentBooks.OrchOk(c, s, s.orchs[k])
    ensures var t := AdvanceOrch(c, s, k, reply);
            t.clock == s.clock && t.readers == s.readers && (t.row == s.row || t.row.status != EXPIRED)
  {
    hide PaymentBooks.OnBooks, PaymentBooks.Reserved, ExtraFor;
    if s.orchs[k].pc.Update? || s.orchs[k].pc.Write? {
      assert WriteStatus(c, s, k, s.orchs[k], s.orchs[k].pc.to, reply).row.status == s.orchs[k].pc.to;
    } else {
      hide Charged;
      PaymentBooks.WorkLeavesTheRow(c, s, k, reply);
    }
  }

  lemma StepInTime(c: Config, s: State, e: Event)
    requires PaymentBooks.Inv(c, s) && InTime(c, s)
    ensures InTime(c, Apply(c, s, e))
  {
    if e.Advance? && e.k in s.orchs {
      CallsNeverExpire(c, s, e.k, e.reply);
    }
    hide AdvanceOrch;
  }

  lemma {:induction false} RunInTime(c: Config, s: State, events: seq<Event>)
    requires PaymentBooks.Inv(c, s) && InTime(c, s)
    ensures InTime(c, Run(c, s, events))
    decreases |events|
  {
    if events != [] {
      PaymentBooks.ApplyKeeps(c, s, events[0]);
      StepInTime(c, s, events[0]);
      hide PaymentBooks.Inv, InTime, Apply;
      RunInTime(c, Apply(c, s, events[0]), events[1..]);
    }
  }

  /** Over every run, a row that reads EXPIRED is past its time, and says that that is why. */
  lemma ExpiredRowsAreLate(c: Config, atc: nat, clock: int, events: seq<Event>)
    ensures var s := Run(c, Init(atc, clock), events);
            s.row.status == EXPIRED ==>
              c.txn.expiresAt < s.clock && s.row.failureReason == Some("transaction_ttl_elapsed")
  {
    RunInTime(c, Init(atc, clock), events);
  }

  /** And a sweep expires every pending row whose time was up then, and touches nothing else. */
  lemma SweepExpiresExactlyTheLate(c: Config, s: State, now: int)
    requires now <= s.clock
    ensures var t := Apply(c, s, Sweep(now));
            && t == s.(row := t.row, history := t.history)
            && (t.row.status == EXPIRED
                <==> s.row.status == EXPIRED || (s.row.status == PENDING && now > c.txn.expiresAt))
            && t.row == s.row.(status := t.row.status, failureReason := t.row.failureReason)
            && (t.row.status == s.row.status ==> t.row == s.row)
  {
  }

  // --- what a read returns -------------------------------------------------------------------------

  /** Read r, already under way, could have seen this status after some of the events. */
  ghost predicate Visible(c: Config, s0: State, events: seq<Event>, r: nat, status: Status) {
    exists n: nat :: n <= |events| && VisibleAt(Run(c, s0, events[..n]), r, status)
  }

  predicate VisibleAt(s: State, r: nat, status: Status) { r in s.readers && s.row.status == status }

  /** The read has seen, or has returned, this status. */
  predicate HasSeen(s: State, r: nat, status: Status) {
    r in s.readers && (s.readers[r] == Seen(status) || (s.readers[r].Returned? && s.readers[r].status == status))
  }

  lemma SeesOrSaw(c: Config, s: State, e: Event, r: nat, status: Status)
    requires HasSeen(Apply(c, s, e), r, status)
    ensures HasSeen(s, r, status) || VisibleAt(s, r, status)
  {
    if e.Advance? && e.k in s.orchs {
      CallsLeaveReads(c, s, e.k, e.reply);
    }
    hide AdvanceOrch, ReadExpired, Swept;
  }

  lemma CallsLeaveReads(c: Config, s: State, k: nat, reply: Reply)
    requires k in s.orchs
    ensures AdvanceOrch(c, s, k, reply).readers == s.readers
  {
    hide Patched, ExtraFor, CanTransition, Charged, UpdateThrew, UpdateDone;
  }

  lemma {:induction false} SeenWasVisible(c: Config, s0: State, events: seq<Event>, r: nat, status: Status)
    requires s0.readers == map[] && HasSeen(Run(c, s0, events), r, status)
    ensures Visible(c, s0, events, r, status)
  {
    if events != [] {
      var n := |events| - 1;
      var front := events[..n];
      assert events == front + [events[n]];
      RunAppend(c, s0, front, [events[n]]);
      var s := Run(c, s0, front);
      assert Run(c, s, [events[n]]) == Apply(c, s, events[n]) by {
        assert [events[n]][1..] == [];
      }
      SeesOrSaw(c, s, events[n], r, status);
      hide Run, Apply, HasSeen, VisibleAt;
      if HasSeen(s, r, status) {
        SeenWasVisible(c, s0, front, r, status);
        var m: nat :| m <= |front| && VisibleAt(Run(c, s0, front[..m]), r, status);
        assert front[..m] == events[..m];
      }
    }
  }

  /**
   Over every run, whatever falls between its statements: a read returns a status that the row had
   at some moment while the read was under way.
   */
  lemma ReadsReturnWhatWasThere(c: Config, atc: nat, clock: int, events: seq<Event>, r: nat)
    ensures var s0 := Init(atc, clock);
            var readers := Run(c, s0, events).readers;
            r in readers && readers[r].Returned? ==>
              exists n: nat :: n <= |events| && var t := Run(c, s0, events[..n]);
                               r in t.readers && t.row.status == readers[r].status
  {
    var s0 := Init(atc, clock);
    var readers := Run(c, s0, events).readers;
    if r in readers && readers[r].Returned? {
      SeenWasVisible(c, s0, events, r, readers[r].status);
      var n: nat :| n <= |events| && VisibleAt(Run(c, s0, events[..n]), r, readers[r].status);
      hide Run;
    }
  }
}
