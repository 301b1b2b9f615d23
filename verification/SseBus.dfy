/**
 The server-sent-events bus (services/pay/src/realtime/sse.service.ts).  The class mutates its
 two maps, the subscriber sets and the responses as the original does; its ghost field `ops`
 is the unbounded log of everything that was asked of it, and Run(ops) the state that log
 should have led to.  The theorems are about every log.
 */
module SseBus {
  import opened Prelude

  datatype SseEvent = SseEvent(kind: string, rlid: string, at: string, data: Option<string>)

  /** What is handed to res.write: the ":connected" comment, or an event as formatSse prints it. */
  datatype Frame = Connected | Wire(event: SseEvent)

  const REPLAY := 20

  class Response {
    var writes: seq<Frame>

    constructor ()
      ensures writes == []
    {
      writes := [];
    }

    method Write(f: Frame)
      modifies this
      ensures writes == old(writes) + [f]
    {
      writes := writes + [f];
    }
  }

  /** The Set object an unsubscribe closure has captured. */
  class Subs {
    var members: set<Response>

    constructor ()
      ensures members == {}
    {
      members := {};
    }
  }

  /** What subscribe returns: the closure, by the variables it captured. */
  datatype Subscription = Subscription(rlid: string, subs: Subs, res: Response)

  // --- the log and the state it leads to ------------------------------------------------

  datatype Op =
    | Publish(event: SseEvent, broken: set<Response>) // `broken`: the responses whose write throws
    | Subscribe(rlid: string, res: Response, subs: Subs)
    | Cut(rlid: string, res: Response, alive: nat) // a subscribe whose writes throw after `alive` of them
    | Unsub(s: Subscription)
    | Forget(of: string)

  datatype Bus = Bus(
    table: map<string, Subs>,
    sets: map<Subs, set<Response>>,         // every Set there ever was, in the table or not
    last: map<string, seq<SseEvent>>,
    written: map<Response, seq<Frame>>,     // every response that ever subscribed
    live: map<Response, Subscription>)      // history: subscriptions not yet cancelled

  function Trimmed(events: seq<SseEvent>): (t: seq<SseEvent>)
    ensures |t| <= REPLAY
  {
    if |events| > REPLAY then events[|events| - REPLAY..] else events
  }

  function Last(b: Bus, rlid: string): seq<SseEvent> { if rlid in b.last then b.last[rlid] else [] }

  function Audience(b: Bus, rlid: string): set<Response> {
    if rlid in b.table && b.table[rlid] in b.sets then b.sets[b.table[rlid]] else {}
  }

  function Members(b: Bus, subs: Subs): set<Response> { if subs in b.sets then b.sets[subs] else {} }

  function Written(b: Bus, r: Response): seq<Frame> { if r in b.written then b.written[r] else [] }

  function Wires(events: seq<SseEvent>): (w: seq<Frame>)
    ensures |w| == |events|
  {
    seq(|events|, i requires 0 <= i < |events| => Wire(events[i]))
  }

  function Heard(written: map<Response, seq<Frame>>, hearers: set<Response>, e: SseEvent): map<Response, seq<Frame>> {
    map r | r in written :: if r in hearers then written[r] + [Wire(e)] else written[r]
  }

  function Published(b: Bus, e: SseEvent, broken: set<Response>): Bus {
    b.(last := b.last[e.rlid := Trimmed(Last(b, e.rlid) + [e])],
       written := Heard(b.written, Audience(b, e.rlid) - broken, e))
  }

  function Greeting(b: Bus, rlid: string): seq<Frame> { [Connected] + Wires(Last(b, rlid)) }

  /** `subs` is the new Set, if the table has none for rlid. */
  function Subscribed(b: Bus, rlid: string, res: Response, subs: Subs): Bus {
    var s := if rlid in b.table then b.table[rlid] else subs;
    b.(table := b.table[rlid := s],
       sets := b.sets[s := (if rlid in b.table then Members(b, s) else {}) + {res}],
       written := b.written[res := Written(b, res) + Greeting(b, rlid)],
       live := b.live[res := Subscription(rlid, s, res)])
  }

  /** The greeting is cut short, the exception leaves subscribe, and nobody is added. */
  function CutShort(b: Bus, rlid: string, res: Response, alive: nat): Bus {
    b.(written := b.written[res := Written(b, res) + Prefix(Greeting(b, rlid), alive)])
  }

  function Prefix(frames: seq<Frame>, n: nat): seq<Frame> { if n <= |frames| then frames[..n] else frames }

  function Unsubscribed(b: Bus, s: Subscription): Bus {
    var left := Members(b, s.subs) - {s.res};
    b.(table := if left == {} then b.table - {s.rlid} else b.table,
       sets := b.sets[s.subs := left],
       live := if s.res in b.live && b.live[s.res] == s then b.live - {s.res} else b.live)
  }

  function Step(b: Bus, op: Op): Bus {
    match op
    case Publish(e, broken) => Published(b, e, broken)
    case Subscribe(rlid, res, subs) => Subscribed(b, rlid, res, subs)
    case Cut(rlid, res, alive) => CutShort(b, rlid, res, alive)
    case Unsub(s) => Unsubscribed(b, s)
    case Forget(rlid) => b.(last := b.last - {rlid})
  }

  function Run(ops: seq<Op>): Bus {
    if ops == [] then Bus(map[], map[], map[], map[], map[])
    else Step(Run(ops[..|ops| - 1]), ops[|ops| - 1])
  }

  lemma RunOneMore(ops: seq<Op>, op: Op)
    ensures Run(ops + [op]) == Step(Run(ops), op)
  {
    assert (ops + [op])[..|ops|] == ops;
  }

  // --- the class ------------------------------------------------------------------------

  ghost predicate SetsAgree(sets: map<Subs, set<Response>>)
    reads sets.Keys
  {
    forall s | s in sets :: s.members == sets[s]
  }

  ghost predicate WritesAgree(written: map<Response, seq<Frame>>)
    reads written.Keys
  {
    forall r | r in written :: r.writes == written[r]
  }

  /** Only known Sets are in the table, and only known responses in the Sets. */
  predicate Closed(b: Bus) {
    && (forall rlid | rlid in b.table :: b.table[rlid] in b.sets)
    && (forall s | s in b.sets :: b.sets[s] <= b.written.Keys)
  }

  lemma ClosedStays(b: Bus, op: Op)
    requires Closed(b)
    ensures Closed(Step(b, op))
  {
  }

  lemma TableClosed(b: Bus, rlid: string)
    requires Closed(b)
    ensures rlid in b.table ==> b.table[rlid] in b.sets
  {
  }

  lemma SubscribedParts(b: Bus, rlid: string, res: Response, subs: Subs)
    requires Closed(b) && (rlid in b.table ==> subs == b.table[rlid])
    ensures var t := Step(b, Op.Subscribe(rlid, res, subs));
            && t.table == b.table[rlid := subs] && t.last == b.last
            && t.sets == b.sets[subs := (if rlid in b.table then b.sets[subs] else {}) + {res}]
            && t.written == b.written[res := (if res in b.written then b.written[res] else []) + Greeting(b, rlid)]
  {
  }

  lemma CutParts(b: Bus, rlid: string, res: Response, alive: nat)
    ensures var t := Step(b, Op.Cut(rlid, res, alive));
            && t.table == b.table && t.last == b.last && t.sets == b.sets
            && t.written == b.written[res := (if res in b.written then b.written[res] else [])
                                             + Prefix(Greeting(b, rlid), alive)]
  {
  }

  lemma WholeGreeting(b: Bus, rlid: string, alive: nat)
    requires alive > |Last(b, rlid)|
    ensures Prefix(Greeting(b, rlid), alive) == Greeting(b, rlid)
  {
  }

  lemma NobodyHeard(written: map<Response, seq<Frame>>, nobody: set<Response>, e: SseEvent)
    requires nobody == {}
    ensures Heard(written, nobody, e) == written
  {
  }

  class SseBus {
    var subscribers: map<string, Subs>
    var lastByRlid: map<string, seq<SseEvent>>
    ghost var ops: seq<Op>
    ghost var bus: Bus // Run(ops)

    /** The objects are in the state the log leads to. */
    ghost predicate Valid()
      reads this, bus.sets.Keys, bus.written.Keys
    {
      && bus == Run(ops) && subscribers == bus.table && lastByRlid == bus.last
      && Closed(bus) && SetsAgree(bus.sets) && WritesAgree(bus.written)
    }

    constructor ()
      ensures Valid() && ops == []
    {
      subscribers, lastByRlid, ops, bus := map[], map[], [], Run([]);
    }

    method Remember(event: SseEvent)
      modifies this`lastByRlid
      ensures lastByRlid == old(lastByRlid)[event.rlid := Trimmed(
                (if event.rlid in old(lastByRlid) then old(lastByRlid)[event.rlid] else []) + [event])]
    {
      var history := if event.rlid in lastByRlid then lastByRlid[event.rlid] else [];
      history := history + [event];
      ghost var all, k := history, 0;
      while |history| > REPLAY
        invariant k <= |all| && history == all[k..]
        invariant k == 0 || |history| >= REPLAY
      {
        assert all[k..][1..] == all[k + 1..];
        history, k := history[1..], k + 1;
      }
      assert history == Trimmed(all);
      lastByRlid := lastByRlid[event.rlid := history];
    }

    /** The loop over one Set; a write that throws is swallowed. */
    method WriteAll(members: set<Response>, event: SseEvent, broken: set<Response>,
                    ghost written: map<Response, seq<Frame>>)
      requires members <= written.Keys && WritesAgree(written)
      modifies written.Keys
      ensures WritesAgree(Heard(written, members - broken, event))
    {
      var todo := members;
      while todo != {}
        invariant todo <= members
        invariant WritesAgree(Heard(written, members - todo - broken, event))
      {
        var res :| res in todo;
        if res !in broken {
          res.Write(Wire(event));
        }
        todo := todo - {res};
      }
    }

    method Fanout(event: SseEvent, broken: set<Response>, ghost b: Bus)
      requires subscribers == b.table && Closed(b) && SetsAgree(b.sets) && WritesAgree(b.written)
      modifies b.written.Keys
      ensures WritesAgree(Heard(b.written, Audience(b, event.rlid) - broken, event))
    {
      if event.rlid in subscribers {
        WriteAll(subscribers[event.rlid].members, event, broken, b.written);
      } else {
        NobodyHeard(b.written, {} - broken, event);
      }
    }

    method Publish(event: SseEvent, broken: set<Response>)
      requires Valid()
      modifies this, bus.written.Keys
      ensures Valid() && ops == old(ops) + [Op.Publish(event, broken)]
    {
      hide Run, Trimmed, Closed, SetsAgree, WritesAgree, Heard, Audience;
      Remember(event);
      Fanout(event, broken, bus);
      RunOneMore(ops, Op.Publish(event, broken));
      ClosedStays(bus, Op.Publish(event, broken));
      ops, bus := ops + [Op.Publish(event, broken)], Published(bus, event, broken);
    }

    /** The comment that opens the stream, and the replay; after `alive` writes the next one throws. */
    method Greet(res: Response, history: seq<SseEvent>, alive: nat, ghost written: map<Response, seq<Frame>>)
        returns (ok: bool)
      requires WritesAgree(written) && (res !in written ==> res.writes == [])
      modifies res
      ensures ok <==> alive > |history|
      ensures WritesAgree(written[res := (if res in written then written[res] else [])
                                         + Prefix([Connected] + Wires(history), alive)])
    {
      ghost var greeting := [Connected] + Wires(history);
      if alive == 0 {
        return false;
      }
      res.Write(Connected);
      for i := 0 to |history|
        invariant i < alive && res.writes == old(res.writes) + greeting[..i + 1]
      {
        if i + 1 == alive {
          return false;
        }
        res.Write(Wire(history[i]));
        assert greeting[..i + 2] == greeting[..i + 1] + [Wire(history[i])];
      }
      return true;
    }

    /** Adds res to the Set of rlid, made if it is not there. */
    method Join(rlid: string, res: Response, ghost sets: map<Subs, set<Response>>) returns (subs: Subs)
      requires SetsAgree(sets) && (rlid in subscribers ==> subscribers[rlid] in sets)
      modifies this`subscribers, sets.Keys
      ensures subscribers == old(subscribers)[rlid := subs]
      ensures if rlid in old(subscribers) then subs == old(subscribers)[rlid] else fresh(subs)
      ensures SetsAgree(sets[subs := (if rlid in old(subscribers) then sets[subs] else {}) + {res}])
    {
      if rlid in subscribers {
        subs := subscribers[rlid];
      } else {
        subs := new Subs();
        subscribers := subscribers[rlid := subs];
      }
      subs.members := subs.members + {res};
    }

    /** Greets, replays, then adds: in that order nothing is published in between. */
    method Admit(rlid: string, res: Response, alive: nat, ghost b: Bus) returns (s: Option<Subscription>, ghost op: Op)
      requires subscribers == b.table && lastByRlid == b.last
      requires (rlid in b.table ==> b.table[rlid] in b.sets) && SetsAgree(b.sets) && WritesAgree(b.written)
      requires Closed(b) && (res !in b.written ==> res.writes == [])
      modifies this`subscribers, res, b.sets.Keys
      ensures s.Some? <==> alive > |Last(b, rlid)|
      ensures s.Some? ==> s.value.rlid == rlid && s.value.res == res
      ensures s.Some? && rlid !in b.table ==> fresh(s.value.subs)
      ensures op == if s.Some? then Op.Subscribe(rlid, res, s.value.subs) else Op.Cut(rlid, res, alive)
      ensures subscribers == Step(b, op).table && b.last == Step(b, op).last
      ensures SetsAgree(Step(b, op).sets) && WritesAgree(Step(b, op).written)
    {
      hide WritesAgree, SetsAgree, Wires, Prefix, Step, Closed;
      var history := if rlid in lastByRlid then lastByRlid[rlid] else [];
      var ok := Greet(res, history, alive, b.written);
      if !ok {
        op := Op.Cut(rlid, res, alive);
        CutParts(b, rlid, res, alive);
        return None, op;
      }
      WholeGreeting(b, rlid, alive);
      var subs := Join(rlid, res, b.sets);
      s, op := Some(Subscription(rlid, subs, res)), Op.Subscribe(rlid, res, subs);
      SubscribedParts(b, rlid, res, subs);
    }

    /** The subscription, or None when a write has thrown. */
    method Subscribe(rlid: string, res: Response, alive: nat) returns (s: Option<Subscription>)
      requires Valid() && (res !in bus.written ==> res.writes == [])
      modifies this, res, bus.sets.Keys
      ensures s.Some? <==> alive > |Last(old(bus), rlid)|
      ensures s.Some? ==> s.value.rlid == rlid && s.value.res == res
      ensures Valid() && ops == old(ops) + [if s.Some? then Op.Subscribe(rlid, res, s.value.subs)
                                            else Op.Cut(rlid, res, alive)]
      ensures s.Some? && rlid !in old(subscribers) ==> fresh(s.value.subs)
    {
      hide Run, Closed, WritesAgree, SetsAgree, Last, Step;
      ghost var op;
      TableClosed(bus, rlid);
      s, op := Admit(rlid, res, alive, bus);
      RunOneMore(ops, op);
      ClosedStays(bus, op);
      ops, bus := ops + [op], Step(bus, op);
    }

    /** The closure's body. */
    method Leave(s: Subscription, ghost sets: map<Subs, set<Response>>)
      requires SetsAgree(sets) && s.subs in sets
      modifies this`subscribers, s.subs
      ensures SetsAgree(sets[s.subs := sets[s.subs] - {s.res}])
      ensures subscribers == if sets[s.subs] - {s.res} == {} then old(subscribers) - {s.rlid} else old(subscribers)
    {
      s.subs.members := s.subs.members - {s.res};
      if s.subs.members == {} {
        subscribers := subscribers - {s.rlid};
      }
    }

    method Unsub(s: Subscription)
      requires Valid() && s.subs in bus.sets
      modifies this, s.subs
      ensures Valid() && ops == old(ops) + [Op.Unsub(s)]
    {
      hide Run, Closed, WritesAgree, SetsAgree;
      ghost var b := bus;
      Leave(s, b.sets);
      RunOneMore(ops, Op.Unsub(s));
      ClosedStays(b, Op.Unsub(s));
      ops, bus := ops + [Op.Unsub(s)], Step(b, Op.Unsub(s));
    }

    method Forget(rlid: string)
      requires Valid()
      modifies this
      ensures Valid() && ops == old(ops) + [Op.Forget(rlid)]
    {
      hide Run, Closed, WritesAgree, SetsAgree;
      ClosedStays(bus, Op.Forget(rlid));
      lastByRlid := lastByRlid - {rlid};
      RunOneMore(ops, Op.Forget(rlid));
      ops, bus := ops + [Op.Forget(rlid)], Step(bus, Op.Forget(rlid));
    }
  }
}
