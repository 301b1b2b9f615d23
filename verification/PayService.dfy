/**
 The pay service's own methods, as the imperative code writes them: updateStatus, the two
 expiry writes, getTransactionByRlid, reserveAtc and orchestratePostAuth with its try/catch.
 Each is proved against the functions of PaymentProtocol; orchestratePostAuth, run with
 nobody else awake, is one run of that step system.
 */
module PayService {
  import opened Prelude
  import opened StateMachine
  import opened PaymentProtocol
  import PaymentBooks

  /** The events of one call, answered by `answers`, and nothing else. */
  function Script(credential: string, answers: seq<Reply>): (events: seq<Event>) {
    [Arrive(0, credential)] + seq(|answers|, i requires 0 <= i < |answers| => Advance(0, answers[i]))
  }

  /** `s` is where the first n answers take a lone call. */
  ghost predicate Reached(c: Config, w: State, credential: string, answers: seq<Reply>, n: nat, s: State) {
    && n <= |answers|
    && 0 in s.orchs
    && s == Run(c, w, Script(credential, answers[..n]))
  }

  lemma Next(c: Config, w: State, credential: string, answers: seq<Reply>, n: nat, s: State)
    requires Reached(c, w, credential, answers, n, s) && n < |answers|
    ensures Reached(c, w, credential, answers, n + 1, AdvanceOrch(c, s, 0, answers[n]))
  {
    PaymentBooks.OthersStand(c, s, 0, answers[n]);
    var e := Advance(0, answers[n]);
    assert Script(credential, answers[..n + 1]) == Script(credential, answers[..n]) + [e];
    RunAppend(c, w, Script(credential, answers[..n]), [e]);
    assert Run(c, s, [e]) == Run(c, Apply(c, s, e), [e][1..]);
  }

  lemma First(c: Config, w: State, credential: string, answers: seq<Reply>)
    requires w.orchs == map[]
    ensures Reached(c, w, credential, answers, 0,
                    WithOrch(w, 0, Orch(Begin, credential, None, None, None, "", Threw, false)))
  {
    assert Script(credential, answers[..0]) == [Arrive(0, credential)];
    var e := Arrive(0, credential);
    assert Run(c, w, [e]) == Run(c, Apply(c, w, e), [e][1..]);
  }

  /** Once the call has ended, the answers left over change nothing. */
  lemma {:induction false} Finish(c: Config, w: State, credential: string, answers: seq<Reply>, n: nat, s: State)
    requires Reached(c, w, credential, answers, n, s) && s.orchs[0].pc.Ended?
    ensures Run(c, w, Script(credential, answers)) == s
    decreases |answers| - n
  {
    if n < |answers| {
      Next(c, w, credential, answers, n, s);
      Finish(c, w, credential, answers, n + 1, s);
    } else {
      assert answers[..n] == answers;
    }
  }

  /** What a lone call's updateStatus throws, if it does. */
  function Thrown(from: Status, to: Status, read: Reply, write: Reply): Option<string> {
    if !read.Good? then Some(DATABASE)
    else if !CanTransition(from, to) then Some(ILLEGAL)
    else if write.Good? then None
    else Some(DATABASE)
  }

  /** Where a lone call's updateStatus leaves things, `read` and `write` answering its two statements. */
  function Updated(c: Config, s: State, o: Orch, to: Status, read: Reply, write: Reply): State {
    if read.Good? && CanTransition(s.row.status, to) && Landed(write)
    then WithOrch(WithRow(s, Patched(s.row, to, ExtraFor(c, o, to), s.clock)), 0, Wrote(o, to, write))
    else WithOrch(s, 0, UpdateThrew(o, to,
                                        if read.Good? && !CanTransition(s.row.status, to) then ILLEGAL else DATABASE))
  }

  /** In one step, a single answer says it all. */
  lemma NextWhole(c: Config, w: State, credential: string, a: seq<Reply>, n: nat, s: State, o: Orch, to: Status)
    requires c.atomic && n < |a| && Reached(c, w, credential, a, n, s) && s.orchs == map[0 := o] && o.pc == Update(to)
    ensures Reached(c, w, credential, a, n + 1, Updated(c, s, o, to, Good(""), a[n]))
  {
    hide Reached, Patched, ExtraFor, CanTransition, UpdateThrew, UpdateDone;
    assert 0 in s.orchs && s.orchs[0] == o;
    Next(c, w, credential, a, n, s);
  }

  /** In two, the write is asked for only if the read went well and the table allows the change. */
  lemma NextHalves(c: Config, w: State, credential: string, a: seq<Reply>, n: nat, s: State, o: Orch, to: Status)
    requires !c.atomic && n + 2 <= |a| && Reached(c, w, credential, a, n, s)
    requires s.orchs == map[0 := o] && o.pc == Update(to)
    ensures Reached(c, w, credential, a, if a[n].Good? && CanTransition(s.row.status, to) then n + 2 else n + 1,
                    Updated(c, s, o, to, a[n], a[n + 1]))
  {
    hide Reached, Patched, CanTransition;
    assert 0 in s.orchs && s.orchs[0] == o;
    Next(c, w, credential, a, n, s);
    if a[n].Good? && CanTransition(s.row.status, to) {
      var o1 := o.(pc := Write(to));
      var s1 := WithOrch(s, 0, o1);
      Next(c, w, credential, a, n + 1, s1);
      Overwrites(s.orchs, o1, Wrote(o, to, a[n + 1]));
      Overwrites(s.orchs, o1, UpdateThrew(o, to, DATABASE));
    }
  }

  /** What UpdateStatus and the call each see of it. */
  lemma UpdatedParts(c: Config, s: State, o: Orch, to: Status, read: Reply, write: Reply)
    requires s.orchs == map[0 := o]
    ensures var t := Updated(c, s, o, to, read, write);
            var thrown := Thrown(s.row.status, to, read, write);
            && 0 in t.orchs && t == s.(row := t.row, history := t.history, orchs := map[0 := t.orchs[0]])
            && (if read.Good? && CanTransition(s.row.status, to) && Landed(write)
                then t.row == Patched(s.row, to, ExtraFor(c, o, to), s.clock) && t.history == s.history + [to]
                else t.row == s.row && t.history == s.history)
            && var o' := t.orchs[0];
               if thrown.None? then o' == UpdateDone(o, to)
               else && o' == UpdateThrew(o, to, thrown.value).(entered := o'.entered)
                    && (to != AUTHN_STARTED ==> o'.entered == o.entered)
  {
    ThrewKeepsEntered(o, to, ILLEGAL);
    ThrewKeepsEntered(o, to, DATABASE);
    hide ExtraFor, CanTransition, UpdateDone, UpdateThrew, Patched;
    PatchedStatus(s.row, to, ExtraFor(c, o, to), s.clock);
    var t := Updated(c, s, o, to, read, write);
    assert map[0 := o][0 := t.orchs[0]] == map[0 := t.orchs[0]];
  }

  lemma ThrewKeepsEntered(o: Orch, to: Status, why: string)
    ensures UpdateThrew(o, to, why).entered == o.entered
  {
  }

  lemma PatchedStatus(row: Row, to: Status, extra: Extra, now: int)
    ensures Patched(row, to, extra, now).status == to
  {
  }

  lemma Overwrites(orchs: map<nat, Orch>, o1: Orch, o2: Orch)
    ensures orchs[0 := o1][0 := o2] == orchs[0 := o2]
  {
  }

  /** One getTransactionByRlid call and nothing else. */
  const READ := [OpenRead(0), AdvanceRead(0), AdvanceRead(0), AdvanceRead(0), AdvanceRead(0)]

  lemma ReadAlone(c: Config, w: State)
    requires w.readers == map[]
    ensures var t := Run(c, w, READ);
            && (if w.row.status == PENDING && c.txn.expiresAt < w.clock
                then t.row == ReadExpired(w.row) && t.history == w.history + [EXPIRED]
                else t.row == w.row && t.history == w.history)
            && 0 in t.readers && t.readers[0].Returned? && t.readers[0].status == t.row.status
  {
    var step := AdvanceRead(0);
    assert READ[1..] == [step, step, step, step] && READ[1..][1..] == [step, step, step];
    assert READ[2..][1..] == [step, step] && READ[3..][1..] == [step] && READ[4..][1..] == [];
    var w1 := Apply(c, w, OpenRead(0));
    var w2 := Apply(c, w1, step);
    var w3 := Apply(c, w2, step);
    var w4 := Apply(c, w3, step);
    assert Run(c, w4, [step]) == Run(c, Apply(c, w4, step), []);
    assert Run(c, w3, [step, step]) == Run(c, w4, [step]);
    assert Run(c, w2, [step, step, step]) == Run(c, w3, [step, step]);
    assert Run(c, w1, [step, step, step, step]) == Run(c, w2, [step, step, step]);
  }

  const NOT_FOUND := "transaction_not_found"

  class PayService {
    const c: Config
    var row: Row
    var clock: int
    var atc: nat
    var reserves: seq<(nat, nat)>
    var mints: seq<nat>
    var captures: seq<Capture>
    var history: seq<Status>

    constructor (c: Config, atc: nat, clock: int)
      ensures this.c == c && World(map[]) == Init(atc, clock)
    {
      this.c, this.row, this.clock, this.atc := c, NewRow, clock, atc;
      reserves, mints, captures, history := [], [], [], [PENDING];
    }

    ghost function World(orchs: map<nat, Orch>): State
      reads this
    {
      State(row, clock, atc, reserves, [], mints, captures, history, orchs, map[])
    }

    /**
     `read` and `write` answer its two statements.  It throws when the database fails or the
     table forbids the change; a write that fails may have taken effect all the same.
     */
    method UpdateStatus(to: Status, extra: Extra, read: Reply, write: Reply) returns (thrown: Option<string>)
      modifies this`row, this`history
      ensures thrown.None? <==> read.Good? && CanTransition(old(row.status), to) && write.Good?
      ensures thrown == Thrown(old(row.status), to, read, write)
      ensures if read.Good? && CanTransition(old(row.status), to) && Landed(write)
              then row == Patched(old(row), to, extra, clock) && history == old(history) + [to]
              else row == old(row) && history == old(history)
    {
      if !read.Good? {
        return Some(DATABASE);
      }
      var current := row.status;
      if !CanTransition(current, to) {
        return Some(ILLEGAL);
      }
      if Landed(write) {
        row := Patched(row, to, extra, clock);
        history := history + [to];
      }
      return if write.Good? then None else Some(DATABASE);
    }

    method ExpirePendingTransactions(now: int) returns (count: nat)
      modifies this`row, this`history
      ensures row == Swept(old(row), c.txn.expiresAt, now)
      ensures row == if count == 1 then old(row).(status := EXPIRED, failureReason := Some("transaction_ttl_elapsed"))
                     else old(row)
      ensures count == if old(row.status) == PENDING && c.txn.expiresAt < now then 1 else 0
      ensures history == if count == 1 then old(history) + [EXPIRED] else old(history)
    {
      count := 0;
      if row.status == PENDING && c.txn.expiresAt < now {
        row, history, count := Expired(row), history + [EXPIRED], 1;
      }
    }

    /** The read path's own updateMany, which looks at the status and not at the clock. */
    method ExpireOnRead() returns (count: nat)
      modifies this`row, this`history
      ensures row == ReadExpired(old(row))
      ensures row == if count == 1 then old(row).(status := EXPIRED, failureReason := Some("transaction_ttl_elapsed"))
                     else old(row)
      ensures count == if old(row.status) == PENDING then 1 else 0
      ensures history == if count == 1 then old(history) + [EXPIRED] else old(history)
    {
      count := 0;
      if row.status == PENDING {
        row, history, count := Expired(row), history + [EXPIRED], 1;
      }
    }

    /**
     Read, compare with the clock, expire, read again: as the step system's reader, run alone.
     An RLID that is not this row's is not found, and nothing is touched.
     */
    method GetTransactionByRlid(rlid: string) returns (r: Result<Row, string>)
      modifies this`row, this`history
      ensures r.Ok? <==> rlid == c.txn.rlid
      ensures r.Err? ==> r.error == NOT_FOUND && row == old(row) && history == old(history)
      ensures r.Ok? ==>
                && r.value == row == AfterRead(old(row))
                && row == Run(c, old(World(map[])), READ).row && history == Run(c, old(World(map[])), READ).history
                && (r.value.status == PENDING ==> clock <= c.txn.expiresAt)
    {
      if rlid != c.txn.rlid {
        return Err(NOT_FOUND);
      }
      ReadAlone(c, World(map[]));
      var txn := row;
      if txn.status == PENDING && c.txn.expiresAt < clock {
        var matched := ExpireOnRead();
        return Ok(row);
      }
      return Ok(txn);
    }

    /** The row a read leaves: expired, if it was pending past its time. */
    ghost function AfterRead(was: Row): Row
      reads this`clock
    {
      if was.status == PENDING && c.txn.expiresAt < clock then ReadExpired(was) else was
    }

    /** Lets an authentication through exactly while the transaction is not terminal. */
    method GetTransactionForAuthOrThrow(rlid: string) returns (r: Result<Row, string>)
      modifies this`row, this`history
      ensures row == if rlid == c.txn.rlid then AfterRead(old(row)) else old(row)
      ensures r.Ok? <==> rlid == c.txn.rlid && !IsTerminal(row.status)
      ensures r.Ok? ==> r.value == row && (row.status == PENDING ==> clock <= c.txn.expiresAt)
      ensures r.Err? ==>
                r.error == if rlid != c.txn.rlid then NOT_FOUND
                           else if row.status == EXPIRED then "transaction_expired" else "transaction_terminal"
    {
      var found := GetTransactionByRlid(rlid);
      if found.Err? {
        return found;
      }
      var txn := found.value;
      if txn.status == EXPIRED {
        return Err("transaction_expired");
      }
      if txn.status == COMPLETED || txn.status == FAILED {
        return Err("transaction_terminal");
      }
      return Ok(txn);
    }

    method ReserveAtc(palisade: Reply) returns (r: Option<nat>)
      modifies this`atc, this`reserves
      ensures r.Some? <==> !palisade.Broken? && !palisade.Lost?
      ensures palisade.Broken? ==> atc == old(atc) && reserves == old(reserves)
      ensures !palisade.Broken? ==> atc == old(atc) + 1 && reserves == old(reserves) + [(0, atc)]
      ensures r.Some? ==> r.value == atc
    {
      if palisade.Broken? {
        return None;
      }
      atc := atc + 1;
      reserves := reserves + [(0, atc)];
      return if palisade.Lost? then None else Some(atc);
    }

    /** provider.charge, when it takes effect. */
    method Capture(paymentMethodId: string, id: string) returns (txnId: string)
      modifies this`captures
      ensures (captures, txnId) == Charged(c, old(captures), paymentMethodId, id)
    {
      var prior := Find(captures, ChargeKey(c.txn));
      if c.honoursKeys && prior.Some? {
        return prior.value.txnId;
      }
      captures := captures
                  + [PaymentProtocol.Capture(ChargeKey(c.txn), c.txn.amount, c.txn.currency, paymentMethodId, id)];
      return id;
    }

    /** One awaited updateStatus of a call: one answer, or one for each of its two statements. */
    method AwaitUpdate(to: Status, extra: Extra, a: seq<Reply>, n: nat, ghost w: State, ghost cr: string, ghost o: Orch)
      returns (thrown: Option<string>, m: nat, ghost o': Orch)
      requires n + 2 <= |a| && Reached(c, w, cr, a, n, World(map[0 := o]))
      requires o.pc == Update(to) && extra == ExtraFor(c, o, to)
      modifies this`row, this`history
      ensures n < m <= n + 2 && Reached(c, w, cr, a, m, World(map[0 := o']))
      ensures thrown.None? ==> o' == UpdateDone(o, to)
      ensures thrown.Some? ==> o' == UpdateThrew(o, to, thrown.value).(entered := o'.entered)
      ensures thrown.Some? && to != AUTHN_STARTED ==> o'.entered == o.entered
    {
      hide Reached, ExtraFor, UpdateDone, UpdateThrew, CanTransition, Patched, Updated, Thrown;
      ghost var s := World(map[0 := o]);
      var read, write := a[n], a[n];
      m := n + 1;
      if c.atomic {
        read := Good("");
        NextWhole(c, w, cr, a, n, s, o, to);
      } else {
        write := a[n + 1];
        NextHalves(c, w, cr, a, n, s, o, to);
        if read.Good? && CanTransition(row.status, to) {
          m := n + 2;
        }
      }
      UpdatedParts(c, s, o, to, read, write);
      o' := Updated(c, s, o, to, read, write).orchs[0];
      thrown := UpdateStatus(to, extra, read, write);
    }

    /** fail(): its own updateStatus may throw, and that is swallowed. */
    method Fail(a: seq<Reply>, n: nat, ghost w: State, ghost cr: string, ghost o: Orch, reason: string)
      requires n + 2 <= |a| && Reached(c, w, cr, a, n, World(map[0 := o]))
      requires o.pc == Update(FAILED) && o.reason == reason
      modifies this`row, this`history
      ensures World(map[0 := o.(pc := Ended(o.verdict))]) == Run(c, w, Script(cr, a))
    {
      var thrown, m;
      ghost var o';
      thrown, m, o' := AwaitUpdate(FAILED, Reason(reason), a, n, w, cr, o);
      Finish(c, w, cr, a, m, World(map[0 := o']));
    }

    method AwaitReserve(a: seq<Reply>, n: nat, ghost w: State, ghost cr: string, ghost o: Orch)
      returns (r: Option<nat>, ghost o': Orch)
      requires n < |a| && Reached(c, w, cr, a, n, World(map[0 := o])) && o.pc == Reserve
      modifies this`atc, this`reserves
      ensures Reached(c, w, cr, a, n + 1, World(map[0 := o']))
      ensures r.Some? ==> o' == o.(pc := Update(ARQC_VALID), atc := r)
      ensures r.None? ==>
                o' == Caught(o, if a[n].Refused? then "arqc_self_validation_failed" else "palisade_unavailable")
    {
      Next(c, w, cr, a, n, World(map[0 := o]));
      ghost var s := World(map[0 := o]);
      r := ReserveAtc(a[n]);
      if r.Some? && a[n].Refused? {
        r := None; // generateArqc threw, or the cryptogram failed its own validation
      }
      o' := AdvanceReserve(s, 0, o, a[n]).orchs[0];
      assert World(map[0 := o']) == AdvanceReserve(s, 0, o, a[n]);
    }

    method AwaitMint(a: seq<Reply>, n: nat, ghost w: State, ghost cr: string, ghost o: Orch)
      returns (ok: bool, ghost o': Orch)
      requires n < |a| && Reached(c, w, cr, a, n, World(map[0 := o])) && o.pc == Mint
      modifies this`mints
      ensures Reached(c, w, cr, a, n + 1, World(map[0 := o']))
      ensures o' == if ok then o.(pc := Tokenise) else Caught(o, "vault_unavailable")
    {
      Next(c, w, cr, a, n, World(map[0 := o]));
      ghost var s := World(map[0 := o]);
      if a[n].Good? || a[n].Lost? {
        mints := mints + [0];
      }
      ok := a[n].Good?;
      o' := if ok then o.(pc := Tokenise) else Caught(o, "vault_unavailable");
      assert World(map[0 := o']) == AdvanceMint(s, 0, o, a[n]);
    }

    method AwaitTokenise(a: seq<Reply>, n: nat, ghost w: State, ghost cr: string, ghost o: Orch)
      returns (pm: Option<string>, ghost o': Orch)
      requires n < |a| && Reached(c, w, cr, a, n, World(map[0 := o])) && o.pc == Tokenise
      ensures pm == if a[n].Good? then Some(a[n].id) else None
      ensures Reached(c, w, cr, a, n + 1, World(map[0 := o']))
      ensures o' == if pm.Some? then o.(pc := Update(VAULT_RETRIEVED), paymentMethodId := pm)
                    else Caught(o, "provider_unavailable")
    {
      Next(c, w, cr, a, n, World(map[0 := o]));
      pm := if a[n].Good? then Some(a[n].id) else None;
      o' := if pm.Some? then o.(pc := Update(VAULT_RETRIEVED), paymentMethodId := pm)
            else Caught(o, "provider_unavailable");
      assert World(map[0 := o']) == AdvanceTokenise(World(map[0 := o]), 0, o, a[n]);
    }

    method AwaitCharge(pm: string, a: seq<Reply>, n: nat, ghost w: State, ghost cr: string, ghost o: Orch)
      returns (txnId: Option<string>, ghost o': Orch)
      requires n < |a| && Reached(c, w, cr, a, n, World(map[0 := o]))
      requires o.pc == Charge && o.paymentMethodId == Some(pm)
      modifies this`captures
      ensures Reached(c, w, cr, a, n + 1, World(map[0 := o']))
      ensures txnId.Some? ==> o' == o.(pc := Update(STRIPE_CHARGED), txnId := txnId)
      ensures txnId.None? && a[n].Refused? ==>
                o' == o.(pc := Update(FAILED), reason := "provider_charge_failed", verdict := ReturnedFailed)
      ensures txnId.None? && !a[n].Refused? ==> o' == Caught(o, "provider_unavailable")
    {
      Next(c, w, cr, a, n, World(map[0 := o]));
      ghost var s := World(map[0 := o]);
      txnId := None;
      if a[n].Good? || a[n].Lost? {
        var id := Capture(pm, a[n].id);
        txnId := if a[n].Good? then Some(id) else None;
      }
      o' := AdvanceCharge(c, s, 0, o, a[n]).orchs[0];
      assert World(map[0 := o']) == AdvanceCharge(c, s, 0, o, a[n]);
    }

    /** The rest of the try block, from the charge on, with n answers used. */
    method ChargeBlock(pm: string, a: seq<Reply>, n: nat, ghost w: State, ghost cr: string, ghost o0: Orch)
      returns (caught: bool, at: nat, reason: string, out: Outcome, ghost o: Orch)
      requires n <= 12 && |a| >= 20 && Reached(c, w, cr, a, n, World(map[0 := o0]))
      requires o0.pc == Charge && o0.paymentMethodId == Some(pm) && o0.verdict == Threw
      modifies this
      ensures caught ==> at <= 17 && Reached(c, w, cr, a, at, World(map[0 := o]))
                         && o.pc == Update(FAILED) && o.reason == reason && o.verdict == Threw
      ensures !caught ==> o.pc == Ended(out) && World(map[0 := o]) == Run(c, w, Script(cr, a))
    {
      hide Patched, Charged, CanTransition, Reached, AdvanceOrch;
      var thrown;
      var txnId;
      txnId, o := AwaitCharge(pm, a, n, w, cr, o0);
      at := n + 1;
      if txnId.None? && a[n].Refused? {
        Fail(a, at, w, cr, o, "provider_charge_failed");
        o := o.(pc := Ended(ReturnedFailed));
        return false, at, "", ReturnedFailed, o;
      }
      if txnId.None? {
        return true, at, "provider_unavailable", Threw, o;
      }
      thrown, at, o := AwaitUpdate(STRIPE_CHARGED, ProviderTxn(txnId.value), a, at, w, cr, o);
      if thrown.Some? {
        return true, at, thrown.value, Threw, o;
      }
      thrown, at, o := AwaitUpdate(COMPLETED, ActualTier(c.txn.tier), a, at, w, cr, o);
      if thrown.Some? {
        return true, at, thrown.value, Threw, o;
      }
      Finish(c, w, cr, a, at, World(map[0 := o]));
      return false, at, "", ReturnedCompleted, o;
    }

    /** The rest of the try block, from the retrieval token on. */
    method VaultBlock(a: seq<Reply>, n: nat, ghost w: State, ghost cr: string, ghost o0: Orch)
      returns (caught: bool, at: nat, reason: string, out: Outcome, ghost o: Orch)
      requires n <= 8 && |a| >= 20 && Reached(c, w, cr, a, n, World(map[0 := o0]))
      requires o0.pc == Mint && o0.verdict == Threw
      modifies this
      ensures caught ==> at <= 17 && Reached(c, w, cr, a, at, World(map[0 := o]))
                         && o.pc == Update(FAILED) && o.reason == reason && o.verdict == Threw
      ensures !caught ==> o.pc == Ended(out) && World(map[0 := o]) == Run(c, w, Script(cr, a))
    {
      hide Patched, CanTransition, Reached, AdvanceOrch;
      var ok;
      var thrown;
      ok, o := AwaitMint(a, n, w, cr, o0);
      if !ok {
        return true, n + 1, "vault_unavailable", Threw, o;
      }
      var pm;
      pm, o := AwaitTokenise(a, n + 1, w, cr, o);
      if pm.None? {
        return true, n + 2, "provider_unavailable", Threw, o;
      }
      thrown, at, o := AwaitUpdate(VAULT_RETRIEVED, Method(c.providerName, pm.value), a, n + 2, w, cr, o);
      if thrown.Some? {
        return true, at, thrown.value, Threw, o;
      }
      caught, at, reason, out, o := ChargeBlock(pm.value, a, at, w, cr, o);
    }

    /** The try block: it returns, or throws with `reason` having used `at` answers. */
    method TryBlock(a: seq<Reply>, n: nat, ghost w: State, ghost cr: string, ghost o0: Orch)
      returns (caught: bool, at: nat, reason: string, out: Outcome, ghost o: Orch)
      requires n <= 5 && |a| >= 20 && Reached(c, w, cr, a, n, World(map[0 := o0]))
      requires o0.pc == Reserve && o0.verdict == Threw
      modifies this
      ensures caught ==> at <= 17 && Reached(c, w, cr, a, at, World(map[0 := o]))
                         && o.pc == Update(FAILED) && o.reason == reason && o.verdict == Threw
      ensures !caught ==> o.pc == Ended(out) && World(map[0 := o]) == Run(c, w, Script(cr, a))
    {
      hide Patched, CanTransition, Reached, AdvanceOrch;
      out := Threw;
      var atc;
      atc, o := AwaitReserve(a, n, w, cr, o0);
      if atc.None? {
        reason := if a[n].Refused? then "arqc_self_validation_failed" else "palisade_unavailable";
        return true, n + 1, reason, Threw, o;
      }
      var thrown;
      thrown, at, o := AwaitUpdate(ARQC_VALID, Cryptogram(c.cryptogram(atc.value), atc.value), a, n + 1, w, cr, o);
      if thrown.Some? {
        return true, at, thrown.value, Threw, o;
      }
      caught, at, reason, out, o := VaultBlock(a, at, w, cr, o);
    }

    /**
     orchestratePostAuth, statement by statement; `a` answers its awaited operations in turn
     (it never needs more than twenty).  At either granularity of updateStatus, what it leaves
     is the state the step system reaches on the same answers, and it ends there as the call
     does here.
     */
    method OrchestratePostAuth(credential: string, a: seq<Reply>) returns (out: Outcome, ghost o: Orch)
      requires |a| >= 20
      modifies this
      ensures o.pc == Ended(out)
      ensures World(map[0 := o]) == Run(c, old(World(map[])), Script(credential, a))
    {
      hide Patched, CanTransition, Reached;
      ghost var w := World(map[]);
      o := Orch(Begin, credential, None, None, None, "", Threw, false);
      First(c, w, credential, a);
      assert w.orchs[0 := o] == map[0 := o];
      Next(c, w, credential, a, 0, World(map[0 := o]));
      if !a[0].Good? {
        assert map[0 := o][0 := o.(pc := Ended(Threw))] == map[0 := o.(pc := Ended(Threw))];
        o := o.(pc := Ended(Threw));
        Finish(c, w, credential, a, 1, World(map[0 := o]));
        return Threw, o;
      }
      if !Vaulted(c.txn) {
        o := Caught(o, "card_not_vaulted");
        Fail(a, 1, w, credential, o, "card_not_vaulted");
        o := o.(pc := Ended(Threw));
        return Threw, o;
      }
      assert map[0 := o][0 := o.(pc := Update(AUTHN_STARTED))] == map[0 := o.(pc := Update(AUTHN_STARTED))];
      o := o.(pc := Update(AUTHN_STARTED));
      var thrown, n;
      thrown, n, o := AwaitUpdate(AUTHN_STARTED, Credential(credential), a, 1, w, credential, o);
      if thrown.Some? {
        Finish(c, w, credential, a, n, World(map[0 := o]));
        return Threw, o;
      }
      thrown, n, o := AwaitUpdate(AUTHN_COMPLETE, NoExtra, a, n, w, credential, o);
      if thrown.Some? {
        Finish(c, w, credential, a, n, World(map[0 := o]));
        return Threw, o;
      }
      var caught, at, reason;
      caught, at, reason, out, o := TryBlock(a, n, w, credential, o);
      if caught {
        Fail(a, at, w, credential, o, reason);
        out := Threw;
        o := o.(pc := Ended(Threw));
      }
    }
  }
}
