/**
 What subscribers of the event bus receive, over every log of proper use: a response
 subscribes once, and its unsubscribe is called at most once.  And what a second call of an
 unsubscribe can do.
 */
module SseDelivery {
  import opened SseBus

  /** Proper use: distinct responses, new Set objects new, an unsubscribe only while subscribed. */
  predicate Allowed(b: Bus, op: Op) {
    match op
    case Subscribe(rlid, res, subs) => res !in b.written && (rlid !in b.table ==> subs !in b.sets)
    case Cut(_, res, _) => res !in b.written
    case Unsub(s) => s.res in b.live && b.live[s.res] == s
    case _ => true
  }

  predicate Proper(ops: seq<Op>) {
    ops == [] || (Proper(ops[..|ops| - 1]) && Allowed(Run(ops[..|ops| - 1]), ops[|ops| - 1]))
  }

  /** A live subscription is in the Set of its RLID, and the Sets in the table hold nothing else. */
  ghost predicate Inv(b: Bus) {
    Closed(b) && b.live.Keys <= b.written.Keys && LiveOk(b.table, b.sets, b.live) && TableOk(b.table, b.sets, b.live)
  }

  ghost predicate LiveOk(table: map<string, Subs>, sets: map<Subs, set<Response>>, live: map<Response, Subscription>) {
    forall r | r in live ::
      var s := live[r];
      s.res == r && s.rlid in table && table[s.rlid] == s.subs && s.subs in sets && r in sets[s.subs]
  }

  ghost predicate TableOk(table: map<string, Subs>, sets: map<Subs, set<Response>>, live: map<Response, Subscription>) {
    forall rlid | rlid in table :: SetOk(sets, live, rlid, table[rlid])
  }

  ghost predicate SetOk(sets: map<Subs, set<Response>>, live: map<Response, Subscription>, rlid: string, s: Subs) {
    && s in sets && sets[s] != {}
    && forall r | r in sets[s] :: r in live && live[r] == Subscription(rlid, s, r)
  }

  lemma OneRlidPerSet(table: map<string, Subs>, sets: map<Subs, set<Response>>, live: map<Response, Subscription>,
                      rlid1: string, rlid2: string)
    requires TableOk(table, sets, live) && rlid1 in table && rlid2 in table && table[rlid1] == table[rlid2]
    ensures rlid1 == rlid2
  {
    var s := table[rlid1];
    assert SetOk(sets, live, rlid1, s) && SetOk(sets, live, rlid2, s);
    var r :| r in sets[s];
  }

  lemma JoinKeeps(table: map<string, Subs>, sets: map<Subs, set<Response>>, live: map<Response, Subscription>,
                  rlid: string, s: Subs, res: Response)
    requires LiveOk(table, sets, live) && TableOk(table, sets, live) && res !in live
    requires if rlid in table then s == table[rlid] else s !in sets
    ensures var table', live' := table[rlid := s], live[res := Subscription(rlid, s, res)];
            var sets' := sets[s := (if rlid in table then sets[s] else {}) + {res}];
            LiveOk(table', sets', live') && TableOk(table', sets', live')
  {
    var live' := live[res := Subscription(rlid, s, res)];
    var sets' := sets[s := (if rlid in table then sets[s] else {}) + {res}];
    forall x | x in table && x != rlid
      ensures SetOk(sets', live', x, table[x])
    {
      assert SetOk(sets, live, x, table[x]);
      if table[x] == s {
        OneRlidPerSet(table, sets, live, x, rlid);
      }
    }
    assert rlid in table ==> SetOk(sets, live, rlid, s);
  }

  lemma SubscribeKeeps(b: Bus, rlid: string, res: Response, subs: Subs)
    requires Inv(b) && Allowed(b, Op.Subscribe(rlid, res, subs))
    ensures Inv(Step(b, Op.Subscribe(rlid, res, subs)))
  {
    ClosedStays(b, Op.Subscribe(rlid, res, subs));
    hide Wires, Closed, LiveOk;
    var s := if rlid in b.table then b.table[rlid] else subs;
    assert rlid in b.table ==> SetOk(b.sets, b.live, rlid, s);
    hide TableOk;
    JoinKeeps(b.table, b.sets, b.live, rlid, s, res);
  }

  lemma LeaveKeeps(table: map<string, Subs>, sets: map<Subs, set<Response>>, live: map<Response, Subscription>,
                   s: Subscription)
    requires LiveOk(table, sets, live) && TableOk(table, sets, live) && s.res in live && live[s.res] == s
    ensures var left := sets[s.subs] - {s.res};
            var table' := if left == {} then table - {s.rlid} else table;
            && LiveOk(table', sets[s.subs := left], live - {s.res})
            && TableOk(table', sets[s.subs := left], live - {s.res})
  {
    var left := sets[s.subs] - {s.res};
    var table' := if left == {} then table - {s.rlid} else table;
    forall x | x in table'
      ensures SetOk(sets[s.subs := left], live - {s.res}, x, table[x])
    {
      assert SetOk(sets, live, x, table[x]);
      if table[x] == s.subs {
        OneRlidPerSet(table, sets, live, x, s.rlid);
      }
    }
  }

  lemma UnsubKeeps(b: Bus, s: Subscription)
    requires Inv(b) && Allowed(b, Op.Unsub(s))
    ensures Inv(Step(b, Op.Unsub(s)))
  {
    ClosedStays(b, Op.Unsub(s));
    hide Closed, TableOk;
    LeaveKeeps(b.table, b.sets, b.live, s);
  }

  lemma {:induction false} RunInv(ops: seq<Op>)
    requires Proper(ops)
    ensures Inv(Run(ops))
  {
    if ops != [] {
      hide Subscribed, Unsubscribed, Closed, LiveOk, TableOk, Trimmed;
      var b, op := Run(ops[..|ops| - 1]), ops[|ops| - 1];
      RunInv(ops[..|ops| - 1]);
      match op
      case Subscribe(rlid, res, subs) => SubscribeKeeps(b, rlid, res, subs);
      case Unsub(s) => UnsubKeeps(b, s);
      case Publish(_, _) => ClosedStays(b, op);
      case Cut(_, _, _) => ClosedStays(b, op);
      case Forget(_) => ClosedStays(b, op);
    }
  }

  // --- the replay buffer against the unbounded log ----------------------------------------

  /** Every event of an RLID since its history was last dropped. */
  function Since(ops: seq<Op>, rlid: string): seq<SseEvent> {
    if ops == [] then []
    else
      var prior := Since(ops[..|ops| - 1], rlid);
      match ops[|ops| - 1]
      case Publish(e, _) => if e.rlid == rlid then prior + [e] else prior
      case Forget(x) => if x == rlid then [] else prior
      case _ => prior
  }

  lemma TrimAgain(events: seq<SseEvent>, e: SseEvent)
    ensures Trimmed(Trimmed(events) + [e]) == Trimmed(events + [e])
  {
  }

  lemma {:induction false} ReplayIsTrimmed(ops: seq<Op>, rlid: string)
    ensures Last(Run(ops), rlid) == Trimmed(Since(ops, rlid))
  {
    hide Trimmed;
    if ops == [] {
      assert Trimmed([]) == [] by { TrimNothing(); }
    } else {
      ReplayIsTrimmed(ops[..|ops| - 1], rlid);
      var op := ops[|ops| - 1];
      if op.Publish? {
        TrimAgain(Since(ops[..|ops| - 1], rlid), op.event);
      }
      TrimNothing();
    }
  }

  lemma TrimNothing()
    ensures Trimmed([]) == []
  {
  }

  /** The bounded buffer is the last min(20, n) of the n events since the last forget. */
  lemma ReplayIsTheTail(ops: seq<Op>, rlid: string)
    ensures var all, last := Since(ops, rlid), Last(Run(ops), rlid);
            && |last| == (if |all| < 20 then |all| else 20)
            && forall i | 0 <= i < |last| :: last[i] == all[|all| - |last| + i]
  {
    hide Run, Since, Last, Trimmed;
    ReplayIsTrimmed(ops, rlid);
    TrimmedIs(Since(ops, rlid));
  }

  lemma TrimmedIs(all: seq<SseEvent>)
    ensures var last := Trimmed(all);
            && |last| == (if |all| < 20 then |all| else 20)
            && forall i | 0 <= i < |last| :: last[i] == all[|all| - |last| + i]
  {
  }

  // --- delivery ------------------------------------------------------------------------

  /** The events of one RLID in a stretch of the log, but for those whose write to r throws. */
  function Own(ops: seq<Op>, rlid: string, r: Response): seq<Frame> {
    if ops == [] then []
    else
      var op := ops[|ops| - 1];
      Own(ops[..|ops| - 1], rlid, r)
      + if op.Publish? && op.event.rlid == rlid && r !in op.broken then [Wire(op.event)] else []
  }

  /** One step, to a live subscriber that is not leaving. */
  lemma StepToLive(b: Bus, op: Op, r: Response)
    requires Inv(b) && Allowed(b, op) && r in b.live && (op.Unsub? ==> op.s.res != r)
    ensures var t := Step(b, op);
            && r in t.live && t.live[r] == b.live[r] && r in b.written && r in t.written
            && t.written[r] == b.written[r] + Own([op], b.live[r].rlid, r)
  {
    hide Trimmed, Wires;
    assert [op][..0] == [] && [op][0] == op;
    if op.Publish? {
      var rlid := op.event.rlid;
      if rlid in b.table {
        assert SetOk(b.sets, b.live, rlid, b.table[rlid]);
      }
      assert r in Audience(b, rlid) <==> b.live[r].rlid == rlid;
    }
  }

  lemma OwnOneMore(ops: seq<Op>, op: Op, rlid: string, r: Response)
    ensures Own(ops + [op], rlid, r) == Own(ops, rlid, r) + Own([op], rlid, r)
  {
    assert (ops + [op])[..|ops|] == ops && [op][..0] == [];
  }

  lemma {:induction false} WhileLive(before: seq<Op>, during: seq<Op>, r: Response)
    requires Proper(before + during) && r in Run(before).live && r in Run(before).written
    requires forall op | op in during && op.Unsub? :: op.s.res != r
    ensures var b, t := Run(before), Run(before + during);
            && r in t.live && t.live[r] == b.live[r] && r in t.written
            && t.written[r] == b.written[r] + Own(during, b.live[r].rlid, r)
    decreases |during|
  {
    hide Step;
    if during == [] {
      assert before + during == before;
    } else {
      var n := |during| - 1;
      assert (before + during)[..|before + during| - 1] == before + during[..n];
      assert during == during[..n] + [during[n]];
      WhileLive(before, during[..n], r);
      RunInv(before + during[..n]);
      StepToLive(Run(before + during[..n]), during[n], r);
      OwnOneMore(during[..n], during[n], Run(before).live[r].rlid, r);
    }
  }

  /** The opening comment, then the last min(20, n) of the n events, in order. */
  predicate Opens(w: seq<Frame>, all: seq<SseEvent>) {
    var n := if |all| < 20 then |all| else 20;
    |w| == n + 1 && w[0] == Connected && forall k | 1 <= k <= n :: w[k] == Wire(all[|all| - n + k - 1])
  }

  lemma GreetingOpens(ops: seq<Op>, rlid: string)
    ensures Opens([Connected] + Wires(Last(Run(ops), rlid)), Since(ops, rlid))
  {
    ReplayIsTheTail(ops, rlid);
    hide Run, Since;
  }

  /**
   A subscriber is written exactly: the opening comment, the last min(20, n) events since the
   last forget, then every event of its own RLID, once and in order.  Nothing published to
   another RLID, and nobody else's broken connection, shows up in it.
   */
  lemma EachHearsItsOwn(before: seq<Op>, rlid: string, r: Response, subs: Subs, during: seq<Op>)
    returns (opening: seq<Frame>)
    requires Proper(before + [Op.Subscribe(rlid, r, subs)] + during)
    requires forall op | op in during && op.Unsub? :: op.s.res != r
    ensures Opens(opening, Since(before, rlid))
    ensures var t := Run(before + [Op.Subscribe(rlid, r, subs)] + during);
            && r in t.written && r in t.live && t.live[r].rlid == rlid
            && t.written[r] == opening + Own(during, rlid, r)
  {
    hide Trimmed, Wires, Step, Opens, Since;
    var op := Op.Subscribe(rlid, r, subs);
    opening := [Connected] + Wires(Last(Run(before), rlid));
    ProperPrefix(before + [op], during);
    assert (before + [op])[..|before|] == before;
    RunOneMore(before, op);
    GreetingOpens(before, rlid);
    Greeted(Run(before), rlid, r, subs);
    WhileLive(before + [op], during, r);
  }

  lemma Greeted(b: Bus, rlid: string, r: Response, subs: Subs)
    requires r !in b.written
    ensures var t := Step(b, Op.Subscribe(rlid, r, subs));
            && r in t.written && t.written[r] == [Connected] + Wires(Last(b, rlid))
            && r in t.live && t.live[r].rlid == rlid
  {
    assert [] + Greeting(b, rlid) == Greeting(b, rlid);
  }

  lemma {:induction false} ProperPrefix(a: seq<Op>, b: seq<Op>)
    requires Proper(a + b)
    ensures Proper(a)
    decreases |b|
  {
    if b == [] {
      assert a + b == a;
    } else {
      assert (a + b)[..|a + b| - 1] == a + b[..|b| - 1];
      ProperPrefix(a, b[..|b| - 1]);
    }
  }

  lemma {:induction false} WhileGone(before: seq<Op>, after: seq<Op>, r: Response)
    requires Proper(before + after) && r !in Run(before).live && r in Run(before).written
    ensures var b, t := Run(before), Run(before + after);
            r !in t.live && r in t.written && t.written[r] == b.written[r]
    decreases |after|
  {
    if after == [] {
      assert before + after == before;
    } else {
      var n := |after| - 1;
      assert (before + after)[..|before + after| - 1] == before + after[..n];
      WhileGone(before, after[..n], r);
      RunInv(before + after[..n]);
      StepToGone(Run(before + after[..n]), after[n], r);
    }
  }

  lemma StepToGone(b: Bus, op: Op, r: Response)
    requires Inv(b) && Allowed(b, op) && r !in b.live && r in b.written
    ensures var t := Step(b, op); r !in t.live && r in t.written && t.written[r] == b.written[r]
  {
    hide Trimmed, Wires;
    if op.Publish? && op.event.rlid in b.table {
      assert SetOk(b.sets, b.live, op.event.rlid, b.table[op.event.rlid]);
    }
  }

  /** The whole life of a subscriber: as above until its unsubscribe, and nothing afterwards. */
  lemma NothingAfterUnsub(before: seq<Op>, s: Subscription, during: seq<Op>, after: seq<Op>)
    returns (opening: seq<Frame>)
    requires var start, stop := Op.Subscribe(s.rlid, s.res, s.subs), Op.Unsub(s);
             Proper(before + [start] + during + [stop] + after)
    requires forall op | op in during && op.Unsub? :: op.s.res != s.res
    ensures Opens(opening, Since(before, s.rlid))
    ensures var t := Run(before + [Op.Subscribe(s.rlid, s.res, s.subs)] + during + [Op.Unsub(s)] + after);
            && s.res in t.written && s.res !in t.live
            && t.written[s.res] == opening + Own(during, s.rlid, s.res)
  {
    hide Trimmed, Wires, Step, Opens, Since;
    var start, stop := Op.Subscribe(s.rlid, s.res, s.subs), Op.Unsub(s);
    var until := before + [start] + during;
    ProperPrefix(until + [stop], after);
    ProperPrefix(until, [stop]);
    opening := EachHearsItsOwn(before, s.rlid, s.res, s.subs, during);
    assert (until + [stop])[..|until|] == until;
    RunOneMore(until, stop);
    StopsLive(Run(until), s);
    WhileGone(until + [stop], after, s.res);
  }

  lemma StopsLive(b: Bus, s: Subscription)
    requires Allowed(b, Op.Unsub(s))
    ensures s.res !in Step(b, Op.Unsub(s)).live && Step(b, Op.Unsub(s)).written == b.written
  {
  }

  /** A subscriber whose connection breaks during the greeting: it is written that much, and nothing ever again. */
  lemma CutHearsNothingMore(before: seq<Op>, rlid: string, r: Response, alive: nat, after: seq<Op>)
    returns (opening: seq<Frame>)
    requires Proper(before + [Op.Cut(rlid, r, alive)] + after)
    ensures Opens(opening, Since(before, rlid))
    ensures var t := Run(before + [Op.Cut(rlid, r, alive)] + after);
            && r in t.written && r !in t.live
            && t.written[r] == if alive < |opening| then opening[..alive] else opening
  {
    hide Trimmed, Wires, Step, Opens, Since;
    var op := Op.Cut(rlid, r, alive);
    opening := [Connected] + Wires(Last(Run(before), rlid));
    ProperPrefix(before + [op], after);
    ProperPrefix(before, [op]);
    RunInv(before);
    assert (before + [op])[..|before|] == before;
    RunOneMore(before, op);
    GreetingOpens(before, rlid);
    CutGreeted(Run(before), rlid, r, alive);
    WhileGone(before + [op], after, r);
  }

  lemma CutGreeted(b: Bus, rlid: string, r: Response, alive: nat)
    requires Inv(b) && r !in b.written
    ensures var t := Step(b, Op.Cut(rlid, r, alive));
            && r in t.written && r !in t.live && t.written[r] == Prefix([Connected] + Wires(Last(b, rlid)), alive)
  {
  }

  // --- an unsubscribe called again ---------------------------------------------------------

  /**
   Exactly when another call of an unsubscribe whose response has already left changes nobody's
   subscription: when the Set it captured has been joined by others, or its RLID has no
   subscribers.  Otherwise the Set it captured is an old, empty one, and it drops the newer Set
   from the table.  This is so in any state, however the bus was used before.
   */
  lemma SecondUnsubIsHarmlessIff(b: Bus, s: Subscription)
    requires s.subs in b.sets && s.res !in b.sets[s.subs]
    ensures (forall rlid :: Audience(Step(b, Op.Unsub(s)), rlid) == Audience(b, rlid))
            <==> b.sets[s.subs] != {} || Audience(b, s.rlid) == {}
  {
    var t := Step(b, Op.Unsub(s));
    assert b.sets[s.subs] - {s.res} == b.sets[s.subs];
    if b.sets[s.subs] == {} && Audience(b, s.rlid) != {} {
      assert Audience(t, s.rlid) != Audience(b, s.rlid);
    } else {
      forall rlid: string
        ensures Audience(t, rlid) == Audience(b, rlid)
      {
      }
    }
  }

  /** Such a run: a leaves twice, and b, which joined in between, never hears the event. */
  lemma SecondUnsubSilencesOthers(rlid: string, a: Response, s1: Subs, b: Response, s2: Subs, e: SseEvent)
    requires a != b && s1 != s2 && e.rlid == rlid
    ensures var left := Subscription(rlid, s1, a);
            var proper := [Op.Subscribe(rlid, a, s1), Op.Unsub(left), Op.Subscribe(rlid, b, s2)];
            Proper(proper) && b in Run(proper).live
            && Written(Run(proper + [Op.Unsub(left)] + [Op.Publish(e, {})]), b) == [Connected]
  {
    hide Trimmed;
    var left := Subscription(rlid, s1, a);
    var p1 := [Op.Subscribe(rlid, a, s1)];
    var p2, p3 := p1 + [Op.Unsub(left)], p1 + [Op.Unsub(left)] + [Op.Subscribe(rlid, b, s2)];
    RunOneMore([], Op.Subscribe(rlid, a, s1));
    assert [] + [Op.Subscribe(rlid, a, s1)] == p1;
    RunOneMore(p1, Op.Unsub(left));
    RunOneMore(p2, Op.Subscribe(rlid, b, s2));
    RunOneMore(p3, Op.Unsub(left));
    RunOneMore(p3 + [Op.Unsub(left)], Op.Publish(e, {}));
    assert p3 == [Op.Subscribe(rlid, a, s1), Op.Unsub(left), Op.Subscribe(rlid, b, s2)];
    assert p3[..2] == p2 && p2[..1] == p1 && p1[..0] == [];
    assert Proper(p1) && Proper(p2) && Proper(p3);
  }
}
