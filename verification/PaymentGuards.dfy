/**
 Updates that are overtaken: what updateStatus's two round trips
 (services/pay/src/transactions/transaction.service.ts:133-139) do to histories and to terminal
 rows, run by run; and the three conditions on a run that the other payment modules use.
 */
module PaymentGuards {
  import opened StateMachine
  import opened PaymentProtocol

  /** If `e` is the update half of an updateStatus, assertTransition would pass again now. */
  predicate GuardHolds(s: State, e: Event) {
    e.Advance? && e.k in s.orchs && s.orchs[e.k].pc.Write? && Landed(e.reply) ==>
      CanTransition(s.row.status, s.orchs[e.k].pc.to)
  }

  ghost predicate GuardsHold(c: Config, s: State, events: seq<Event>)
    decreases |events|
  {
    events == [] || (GuardHolds(s, events[0]) && GuardsHold(c, Apply(c, s, events[0]), events[1..]))
  }

  ghost predicate Current(s: State) {
    |s.history| > 0 && s.history[|s.history| - 1] == s.row.status
  }

  /** An event appends at most one status, and an illegal one only where a guard is stale. */
  ghost predicate Recorded(s: State, e: Event, s': State) {
    || (s'.history == s.history && s'.row == s.row && GuardHolds(s, e))
    || (s'.history == s.history + [s'.row.status]
        && (GuardHolds(s, e) <==> CanTransition(s.row.status, s'.row.status)))
  }

  lemma WorkRecorded(c: Config, s: State, k: nat, reply: Reply)
    requires k in s.orchs && !s.orchs[k].pc.Update? && !s.orchs[k].pc.Write?
    ensures Recorded(s, Advance(k, reply), AdvanceOrch(c, s, k, reply))
  {
  }

  lemma StepRecorded(c: Config, s: State, e: Event)
    ensures Recorded(s, e, Apply(c, s, e))
  {
    match e
    case Advance(k, reply) =>
      if k in s.orchs && !s.orchs[k].pc.Update? && !s.orchs[k].pc.Write? {
        WorkRecorded(c, s, k, reply);
      }
    case _ =>
  }

  lemma PathExtends(h: seq<Status>, status: Status)
    requires |h| > 0
    ensures IsPath(h + [status]) <==> IsPath(h) && CanTransition(h[|h| - 1], status)
  {
    var g := h + [status];
    if IsPath(g) {
      forall i | 0 < i < |h|
        ensures CanTransition(h[i - 1], h[i])
      {
        assert CanTransition(g[i - 1], g[i]);
      }
      assert CanTransition(g[|h| - 1], g[|h|]);
    }
    if IsPath(h) && CanTransition(h[|h| - 1], status) {
      forall i | 0 < i < |g|
        ensures CanTransition(g[i - 1], g[i])
      {
        if i < |h| {
          assert CanTransition(h[i - 1], h[i]);
        }
      }
    }
  }

  lemma {:induction false} HistoryOnlyGrows(c: Config, s: State, events: seq<Event>)
    requires Current(s)
    ensures IsPath(Run(c, s, events).history) ==> IsPath(s.history)
    decreases |events|
  {
    if events != [] {
      StepRecorded(c, s, events[0]);
      PathExtends(s.history, Apply(c, s, events[0]).row.status);
      HistoryOnlyGrows(c, Apply(c, s, events[0]), events[1..]);
    }
  }

  /**
   The exact condition, at either granularity: a run's history stays inside the table if and
   only if every update half finds a status from which its own guard would still let it go.
   */
  lemma {:induction false} HistoryIsPathIffGuardsHold(c: Config, s: State, events: seq<Event>)
    requires Current(s) && IsPath(s.history)
    ensures IsPath(Run(c, s, events).history) <==> GuardsHold(c, s, events)
    decreases |events|
  {
    if events != [] {
      var s' := Apply(c, s, events[0]);
      StepRecorded(c, s, events[0]);
      PathExtends(s.history, s'.row.status);
      if GuardHolds(s, events[0]) {
        HistoryIsPathIffGuardsHold(c, s', events[1..]);
      } else {
        HistoryOnlyGrows(c, s', events[1..]);
      }
    }
  }

  lemma {:induction false} HistoryNeverShrinks(c: Config, s: State, events: seq<Event>)
    ensures |Run(c, s, events).history| >= |s.history|
    decreases |events|
  {
    if events != [] {
      StepRecorded(c, s, events[0]);
      HistoryNeverShrinks(c, Apply(c, s, events[0]), events[1..]);
    }
  }

  /** The history starts where it started, and ends with the row's status. */
  lemma {:induction false} HistoryIsKept(c: Config, s: State, events: seq<Event>)
    requires Current(s)
    ensures var t := Run(c, s, events); Current(t) && t.history[0] == s.history[0]
    decreases |events|
  {
    if events != [] {
      StepRecorded(c, s, events[0]);
      HistoryIsKept(c, Apply(c, s, events[0]), events[1..]);
    }
  }

  /**
   The same of terminal rows, at either granularity: one stays as it is through whatever
   follows if and only if every update half still finds its guard holding.
   */
  lemma {:induction false} TerminalRowStaysIffGuardsHold(c: Config, s: State, events: seq<Event>)
    requires IsTerminal(s.row.status)
    ensures Run(c, s, events).row == s.row && Run(c, s, events).history == s.history <==> GuardsHold(c, s, events)
    decreases |events|
  {
    if events != [] {
      var s' := Apply(c, s, events[0]);
      StepRecorded(c, s, events[0]);
      if GuardHolds(s, events[0]) {
        TerminalHasNoExit(s.row.status, s'.row.status);
        TerminalRowStaysIffGuardsHold(c, s', events[1..]);
      } else {
        HistoryNeverShrinks(c, s', events[1..]);
      }
    }
  }

  lemma TerminalHasNoExit(from: Status, to: Status)
    requires IsTerminal(from)
    ensures !CanTransition(from, to)
  {
  }

  lemma {:induction false} GuardsHoldAfter(c: Config, s: State, before: seq<Event>, after: seq<Event>)
    requires GuardsHold(c, s, before + after)
    ensures GuardsHold(c, Run(c, s, before), after)
    decreases |before|
  {
    if before == [] {
      assert before + after == after;
    } else {
      assert (before + after)[0] == before[0] && (before + after)[1..] == before[1..] + after;
      GuardsHoldAfter(c, Apply(c, s, before[0]), before[1..], after);
    }
  }

  // --- the first update ---------------------------------------------------------------------

  /** Some update has taken effect that is not an expiry. */
  predicate UnderWay(status: Status) { status != PENDING && status != EXPIRED }

  /** No call's AUTHN_STARTED is written over a row that another call has under way. */
  predicate EntryHolds(s: State, e: Event) {
    e.Advance? && e.k in s.orchs && s.orchs[e.k].pc == Write(AUTHN_STARTED) && Landed(e.reply) ==>
      !UnderWay(s.row.status)
  }

  ghost predicate EntriesHold(c: Config, s: State, events: seq<Event>)
    decreases |events|
  {
    events == [] || (EntryHolds(s, events[0]) && EntriesHold(c, Apply(c, s, events[0]), events[1..]))
  }

  /** No call's AUTHN_STARTED is written over a row that has left PENDING: the guard of that update alone. */
  predicate FirstGuardHolds(s: State, e: Event) {
    e.Advance? && e.k in s.orchs && s.orchs[e.k].pc == Write(AUTHN_STARTED) && Landed(e.reply) ==>
      s.row.status == PENDING
  }

  ghost predicate FirstGuardsHold(c: Config, s: State, events: seq<Event>)
    decreases |events|
  {
    events == [] || (FirstGuardHolds(s, events[0]) && FirstGuardsHold(c, Apply(c, s, events[0]), events[1..]))
  }

  /** A run in which no update is overtaken is one in which no first update is. */
  lemma {:induction false} CurrentRunsEnterInTurn(c: Config, s: State, events: seq<Event>)
    requires GuardsHold(c, s, events)
    ensures EntriesHold(c, s, events)
    decreases |events|
  {
    if events != [] {
      CurrentRunsEnterInTurn(c, Apply(c, s, events[0]), events[1..]);
    }
  }

  ghost predicate NobodyWrites(s: State) { forall k | k in s.orchs :: !s.orchs[k].pc.Write? }

  lemma WholeStep(c: Config, s: State, e: Event)
    requires c.atomic && NobodyWrites(s)
    ensures NobodyWrites(Apply(c, s, e)) && GuardHolds(s, e)
  {
    hide Patched, ExtraFor, CanTransition, Charged;
  }

  lemma {:induction false} WholeRun(c: Config, s: State, events: seq<Event>)
    requires c.atomic && NobodyWrites(s)
    ensures GuardsHold(c, s, events)
    decreases |events|
  {
    if events != [] {
      hide NobodyWrites, GuardHolds, Apply;
      WholeStep(c, s, events[0]);
      WholeRun(c, Apply(c, s, events[0]), events[1..]);
    }
  }

  /** With updateStatus in one step no update is ever overtaken. */
  lemma OneStepIsNeverOvertaken(c: Config, atc: nat, clock: int, events: seq<Event>)
    requires c.atomic
    ensures GuardsHold(c, Init(atc, clock), events) && EntriesHold(c, Init(atc, clock), events)
  {
    WholeRun(c, Init(atc, clock), events);
    CurrentRunsEnterInTurn(c, Init(atc, clock), events);
  }
}
