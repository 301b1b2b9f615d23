/**
 What a storeCard call can still lose once its checks have passed
 (services/vault/src/vault/store.service.ts:31-92): over every run, exactly when it throws.
 */
module VaultRefusals {
  import opened Prelude
  import opened Bytes
  import Luhn
  import opened Envelope
  import opened VaultProtocol
  import VaultStore

  /** The event is call k's create. */
  predicate IsCreate(s: Store, e: Event, k: nat) {
    && k in s.storers && s.storers[k].at == AtCreate
    && ((e.StoreStep? && e.k == k && |e.iv| == IV_LEN) || (e.StoreLost? && e.k == k))
  }

  predicate HoldsCard(c: Config, e: Entry, i: StoreInput) { e.panFingerprint == FingerprintPan(c, Luhn.Strip(i.pan)) }

  predicate HoldsKey(e: Entry, i: StoreInput) { i.idempotencyKey.Some? && e.idempotencyKey == i.idempotencyKey }

  /** Another call made this row, and it has the card or the key of `i`. */
  predicate Rivals(c: Config, s: Store, row: string, k: nat, i: StoreInput) {
    && row in s.entries && row in s.origin && s.origin[row].call != k
    && (HoldsCard(c, s.entries[row], i) || HoldsKey(s.entries[row], i))
  }

  ghost predicate Loses(c: Config, s: Store, e: Event, k: nat) {
    && IsCreate(s, e, k)
    && (e.StoreLost? || e.id in s.entries || exists row :: Rivals(c, s, row, k, s.storers[k].input))
  }

  /** Its checks passed, and it has thrown all the same. */
  predicate RefusedLater(s: Store, k: nat) {
    k in s.storers && Accepts(s.storers[k].input) && s.storers[k].at == Refused
  }

  // --- one event -----------------------------------------------------------------------------

  /** A unique column objects exactly if a rival has the value. */
  lemma ViolatesIffRivals(c: Config, s: Store, k: nat, id: string, e: Entry)
    requires VaultStore.Inv(c, s) && k in s.storers && s.storers[k].at == AtCreate
    requires e.panFingerprint == FingerprintPan(c, Luhn.Strip(s.storers[k].input.pan))
    ensures var i := s.storers[k].input;
            Violates(s, i, id, e) <==> id in s.entries || exists row :: Rivals(c, s, row, k, i)
  {
    hide FingerprintPan, VaultStore.EntryOk, VaultStore.StorersOk;
    var i := s.storers[k].input;
    if e.panFingerprint in s.byFp {
      assert Rivals(c, s, s.byFp[e.panFingerprint], k, i);
    }
    if KeyTaken(s, i.idempotencyKey) {
      assert Rivals(c, s, s.byKey[i.idempotencyKey.value], k, i);
    }
  }

  lemma CreateLoses(c: Config, s: Store, e: Event, k: nat)
    requires Assumed(c) && VaultStore.Inv(c, s) && IsCreate(s, e, k)
    ensures k in ApplyStore(c, s, e).storers
    ensures var o := ApplyStore(c, s, e).storers[k];
            && o.input == s.storers[k].input && (o.at == Refused <==> Loses(c, s, e, k))
            && o.at != AtFp && o.at != AtCreate
  {
    hide Accepts, FingerprintPan, VaultStore.RowsOk, VaultStore.FpIndexOk, VaultStore.KeyIndexOk, VaultStore.CreatorsOk;
    var i := s.storers[k].input;
    if e.StoreStep? {
      assert VaultStore.StorerOk(c, s.entries, s.storers[k]);
      VaultStore.NewEntryOk(c, s.ring, i, e.iv);
      ViolatesIffRivals(c, s, k, e.id, NewEntry(c, s.ring, i, e.iv).value);
      hide NewEntry, Violates;
    } else {
      hide CreateEntry;
    }
  }

  /** Any other step. */
  lemma OthersNeverRefuse(c: Config, s: Store, e: Event, k: nat)
    requires k in s.storers && !IsCreate(s, e, k) && (s.storers[k].at == AtKey ==> HasKey(s.storers[k].input))
    ensures k in ApplyStore(c, s, e).storers
    ensures var o := ApplyStore(c, s, e).storers[k];
            && o.input == s.storers[k].input && (o.at == Refused <==> s.storers[k].at == Refused)
            && (o.at == AtCreate && s.storers[k].at != AtCreate ==> MissesCard(c, s, e, k))
            && (o.at == AtFp && s.storers[k].at != AtFp ==> MissesKey(s, e, k))
  {
    hide AdvanceStore, LoseCreate, FingerprintPan;
    if (e.StoreStep? || e.StoreLost?) && e.k != k && e.k in s.storers {
      AdvanceMovesOne(c, s, e.k, e.iv, e.id, k);
    } else if e.StoreStep? && e.k == k {
      LookupNeverRefuses(c, s, e, k);
    }
  }

  lemma LookupNeverRefuses(c: Config, s: Store, e: Event, k: nat)
    requires k in s.storers && !IsCreate(s, e, k) && (s.storers[k].at == AtKey ==> HasKey(s.storers[k].input))
    requires e.StoreStep? && e.k == k
    ensures var o := AdvanceStore(c, s, k, e.iv, e.id).storers[k];
            && o.input == s.storers[k].input && (o.at == Refused <==> s.storers[k].at == Refused)
            && (o.at == AtCreate && s.storers[k].at != AtCreate ==> MissesCard(c, s, e, k))
            && (o.at == AtFp && s.storers[k].at != AtFp ==> MissesKey(s, e, k))
  {
    hide CreateEntry, FingerprintPan;
    if s.storers[k].at == AtKey {
      KeyLookup(c, s, k, e.iv, e.id);
    } else if s.storers[k].at == AtFp {
      CardLookup(c, s, k, e.iv, e.id);
    } else {
      assert AdvanceStore(c, s, k, e.iv, e.id) == s;
    }
    hide AdvanceStore;
  }

  lemma KeyLookup(c: Config, s: Store, k: nat, iv: bytes, id: string)
    requires k in s.storers && s.storers[k].at == AtKey && HasKey(s.storers[k].input)
    ensures var o := AdvanceStore(c, s, k, iv, id).storers[k];
            && o.input == s.storers[k].input && (o.at == AtFp || o.at.Stored?)
            && (o.at == AtFp ==> s.storers[k].input.idempotencyKey.value !in s.byKey)
  {
    hide CreateEntry, FingerprintPan;
  }

  lemma CardLookup(c: Config, s: Store, k: nat, iv: bytes, id: string)
    requires k in s.storers && s.storers[k].at == AtFp
    ensures var o := AdvanceStore(c, s, k, iv, id).storers[k];
            && o.input == s.storers[k].input && (o.at == AtCreate || o.at.Stored? || o.at.Duplicate?)
            && (o.at == AtCreate ==> FingerprintPan(c, Luhn.Strip(s.storers[k].input.pan)) !in s.byFp)
  {
    hide CreateEntry, FingerprintPan;
  }

  lemma AdvanceMovesOne(c: Config, s: Store, k: nat, iv: bytes, id: string, l: nat)
    requires k in s.storers && l in s.storers && l != k
    ensures AdvanceStore(c, s, k, iv, id).storers[l] == s.storers[l]
    ensures LoseCreate(c, s, k, iv, id).storers.Keys == s.storers.Keys
    ensures LoseCreate(c, s, k, iv, id).storers[l] == s.storers[l]
  {
    hide CreateEntry, FingerprintPan;
    CreateMovesOne(c, s, k, s.storers[k].input, iv, id, l);
  }

  lemma CreateMovesOne(c: Config, s: Store, k: nat, i: StoreInput, iv: bytes, id: string, l: nat)
    requires l in s.storers && l != k
    ensures var t := CreateEntry(c, s, k, i, iv, id); l in t.storers && t.storers[l] == s.storers[l]
  {
    hide NewEntry, Violates;
  }

  /** Call k looks its card up, and finds no row. */
  predicate MissesCard(c: Config, s: Store, e: Event, k: nat) {
    && e.StoreStep? && e.k == k && k in s.storers && s.storers[k].at == AtFp
    && FingerprintPan(c, Luhn.Strip(s.storers[k].input.pan)) !in s.byFp
  }

  /** Call k looks its key up, and finds no row. */
  predicate MissesKey(s: Store, e: Event, k: nat) {
    && e.StoreStep? && e.k == k && k in s.storers && s.storers[k].at == AtKey
    && s.storers[k].input.idempotencyKey.Some? && s.storers[k].input.idempotencyKey.value !in s.byKey
  }

  // --- runs --------------------------------------------------------------------------------------

  /** The tables before event n of a run. */
  function Before(c: Config, s0: State, events: seq<Event>, n: nat): Store
    requires n <= |events|
  {
    Run(c, s0, events[..n]).store
  }

  lemma LastStep(c: Config, s0: State, events: seq<Event>)
    requires events != []
    ensures var n := |events| - 1;
            Run(c, s0, events).store == ApplyStore(c, Before(c, s0, events, n), events[n])
  {
    var n := |events| - 1;
    assert events == events[..n] + [events[n]];
    RunAppend(c, s0, events[..n], [events[n]]);
    RunOne(c, Run(c, s0, events[..n]), events[n]);
  }

  ghost predicate LosesAt(c: Config, s0: State, events: seq<Event>, n: nat, k: nat) {
    n < |events| && Loses(c, Before(c, s0, events, n), events[n], k)
  }

  ghost predicate MissesCardAt(c: Config, s0: State, events: seq<Event>, n: nat, k: nat, i: StoreInput) {
    && n < |events|
    && var s := Before(c, s0, events, n); MissesCard(c, s, events[n], k) && s.storers[k].input == i
  }

  ghost predicate MissesKeyAt(c: Config, s0: State, events: seq<Event>, n: nat, k: nat, i: StoreInput) {
    && n < |events|
    && var s := Before(c, s0, events, n); MissesKey(s, events[n], k) && s.storers[k].input == i
  }

  /** What happened in a prefix happened in the run. */
  lemma Prefixes(c: Config, s0: State, events: seq<Event>, m: nat, n: nat, k: nat, i: StoreInput)
    requires m <= n <= |events|
    ensures Before(c, s0, events[..n], m) == Before(c, s0, events, m)
    ensures m < n ==>
              && LosesAt(c, s0, events[..n], m, k) == LosesAt(c, s0, events, m, k)
              && MissesCardAt(c, s0, events[..n], m, k, i) == MissesCardAt(c, s0, events, m, k, i)
              && MissesKeyAt(c, s0, events[..n], m, k, i) == MissesKeyAt(c, s0, events, m, k, i)
  {
    assert events[..n][..m] == events[..m];
  }

  lemma RefusalStep(c: Config, s: Store, e: Event, k: nat)
    requires Assumed(c) && VaultStore.Inv(c, s)
    ensures RefusedLater(ApplyStore(c, s, e), k) <==> RefusedLater(s, k) || Loses(c, s, e, k)
  {
    if k in s.storers {
      assert VaultStore.StorerOk(c, s.entries, s.storers[k]);
      hide VaultStore.Inv, ApplyStore, Loses, Accepts;
      if IsCreate(s, e, k) {
        CreateLoses(c, s, e, k);
      } else {
        OthersNeverRefuse(c, s, e, k);
        assert !Loses(c, s, e, k) by { OnlyCreateLoses(c, s, e, k); }
      }
    } else {
      hide Accepts;
    }
  }

  lemma OnlyCreateLoses(c: Config, s: Store, e: Event, k: nat)
    requires !IsCreate(s, e, k)
    ensures !Loses(c, s, e, k)
  {
  }

  lemma {:induction false} RefusedIffLost(c: Config, s0: State, events: seq<Event>, k: nat)
    requires Assumed(c) && VaultStore.Inv(c, s0.store) && !RefusedLater(s0.store, k)
    ensures RefusedLater(Run(c, s0, events).store, k) <==> exists n :: LosesAt(c, s0, events, n, k)
    decreases |events|
  {
    if events != [] {
      var last := |events| - 1;
      var s := Before(c, s0, events, last);
      LastStep(c, s0, events);
      VaultStore.RunKeeps(c, s0, events[..last]);
      RefusedIffLost(c, s0, events[..last], k);
      RefusalStep(c, s, events[last], k);
      LosesByTheEnd(c, s0, events, k);
    }
  }

  /** A run loses exactly if it did before its last event, or does then. */
  lemma LosesByTheEnd(c: Config, s0: State, events: seq<Event>, k: nat)
    requires events != []
    ensures var last := |events| - 1;
            (exists n :: LosesAt(c, s0, events, n, k)) <==>
              (exists n :: LosesAt(c, s0, events[..last], n, k))
              || Loses(c, Before(c, s0, events, last), events[last], k)
  {
    hide Loses, Before;
    var last := |events| - 1;
    var i := StoreInput("", None, "", "", "", None, None);
    if n: nat :| LosesAt(c, s0, events[..last], n, k) {
      Prefixes(c, s0, events, n, last, k, i);
      assert LosesAt(c, s0, events, n, k);
    }
    if Loses(c, Before(c, s0, events, last), events[last], k) {
      assert LosesAt(c, s0, events, last, k);
    }
    if n: nat :| LosesAt(c, s0, events, n, k) && n != last {
      Prefixes(c, s0, events, n, last, k, i);
      assert LosesAt(c, s0, events[..last], n, k);
    }
  }

  // --- the lookups a call made before its create ------------------------------------------------

  ghost predicate MissedCard(c: Config, s0: State, events: seq<Event>, k: nat, i: StoreInput) {
    exists m :: MissesCardAt(c, s0, events, m, k, i)
  }

  ghost predicate MissedKey(c: Config, s0: State, events: seq<Event>, k: nat, i: StoreInput) {
    exists m :: MissesKeyAt(c, s0, events, m, k, i)
  }

  lemma MissedStays(c: Config, s0: State, events: seq<Event>, k: nat, i: StoreInput)
    requires events != []
    ensures MissedCard(c, s0, events[..|events| - 1], k, i) ==> MissedCard(c, s0, events, k, i)
    ensures MissedKey(c, s0, events[..|events| - 1], k, i) ==> MissedKey(c, s0, events, k, i)
  {
    hide MissesCard, MissesKey, Before;
    var last := |events| - 1;
    if m: nat :| MissesCardAt(c, s0, events[..last], m, k, i) {
      Prefixes(c, s0, events, m, last, k, i);
      assert MissesCardAt(c, s0, events, m, k, i);
    }
    if m: nat :| MissesKeyAt(c, s0, events[..last], m, k, i) {
      Prefixes(c, s0, events, m, last, k, i);
      assert MissesKeyAt(c, s0, events, m, k, i);
    }
  }

  /** Whoever has come past a lookup has made it in vain. */
  ghost predicate CameBy(c: Config, s0: State, events: seq<Event>, k: nat, o: Storer) {
    && (o.at == AtCreate ==> MissedCard(c, s0, events, k, o.input))
    && ((o.at == AtCreate || o.at == AtFp) && HasKey(o.input) ==> MissedKey(c, s0, events, k, o.input))
  }

  lemma {:induction false} LookupsWereMade(c: Config, s0: State, events: seq<Event>, k: nat)
    requires Assumed(c) && VaultStore.Inv(c, s0.store) && k !in s0.store.storers
    ensures var t := Run(c, s0, events).store;
            k in t.storers ==> CameBy(c, s0, events, k, t.storers[k])
    decreases |events|
  {
    if events != [] {
      var last := |events| - 1;
      LastStep(c, s0, events);
      VaultStore.RunKeeps(c, s0, events[..last]);
      LookupsWereMade(c, s0, events[..last], k);
      LookupStep(c, s0, events, k);
    }
  }

  lemma LookupStep(c: Config, s0: State, events: seq<Event>, k: nat)
    requires Assumed(c) && events != []
    requires var s := Before(c, s0, events, |events| - 1);
             VaultStore.Inv(c, s) && (k in s.storers ==> CameBy(c, s0, events[..|events| - 1], k, s.storers[k]))
    ensures var t := ApplyStore(c, Before(c, s0, events, |events| - 1), events[|events| - 1]);
            k in t.storers ==> CameBy(c, s0, events, k, t.storers[k])
  {
    var last := |events| - 1;
    var s, e := Before(c, s0, events, last), events[last];
    var t := ApplyStore(c, s, e);
    if k in s.storers {
      assert VaultStore.StorerOk(c, s.entries, s.storers[k]);
      hide VaultStore.Inv, ApplyStore, Accepts, Loses, Before, FingerprintPan, CameBy;
      if IsCreate(s, e, k) {
        CreateLoses(c, s, e, k);
      } else {
        OthersNeverRefuse(c, s, e, k);
      }
      MissesNow(c, s0, events, k);
      StillCameBy(c, s0, events, k, s.storers[k], t.storers[k]);
    } else {
      NewcomerStarts(c, s, e, k);
      hide VaultStore.Inv, ApplyStore, Before, MissedCard, MissedKey;
    }
  }

  lemma NewcomerStarts(c: Config, s: Store, e: Event, k: nat)
    requires k !in s.storers
    ensures var t := ApplyStore(c, s, e);
            k in t.storers ==> t.storers[k].at != AtCreate && (t.storers[k].at == AtFp ==> !HasKey(t.storers[k].input))
  {
    hide AdvanceStore, Accepts;
  }

  lemma StillCameBy(c: Config, s0: State, events: seq<Event>, k: nat, was: Storer, o: Storer)
    requires events != [] && CameBy(c, s0, events[..|events| - 1], k, was) && o.input == was.input
    requires o.at == AtCreate && was.at != AtCreate ==> was.at == AtFp && MissedCard(c, s0, events, k, o.input)
    requires o.at == AtFp && was.at != AtFp ==> MissedKey(c, s0, events, k, o.input)
    ensures CameBy(c, s0, events, k, o)
  {
    hide MissedCard, MissedKey;
    MissedStays(c, s0, events, k, was.input);
  }

  lemma MissesNow(c: Config, s0: State, events: seq<Event>, k: nat)
    requires events != [] && k in Before(c, s0, events, |events| - 1).storers
    ensures var last := |events| - 1;
            var s := Before(c, s0, events, last);
            && (MissesCard(c, s, events[last], k) ==> MissedCard(c, s0, events, k, s.storers[k].input))
            && (MissesKey(s, events[last], k) ==> MissedKey(c, s0, events, k, s.storers[k].input))
  {
    hide MissesCard, MissesKey, Before;
    var last := |events| - 1;
    var i := Before(c, s0, events, last).storers[k].input;
    assert MissesCard(c, Before(c, s0, events, last), events[last], k) ==> MissesCardAt(c, s0, events, last, k, i);
    assert MissesKey(Before(c, s0, events, last), events[last], k) ==> MissesKeyAt(c, s0, events, last, k, i);
  }

  // --- rows are only added ------------------------------------------------------------------------

  ghost predicate Keeps(entries: map<string, Entry>, later: map<string, Entry>) {
    forall row | row in entries :: row in later && later[row] == entries[row]
  }

  lemma RowsStay(c: Config, s: Store, e: Event)
    ensures Keeps(s.entries, ApplyStore(c, s, e).entries)
  {
    hide NewEntry, FingerprintPan;
    if (e.StoreStep? || e.StoreLost?) && e.k in s.storers {
      RowsStayAdvancing(c, s, e.k, e.iv, e.id);
      hide AdvanceStore;
    }
  }

  lemma RowsStayAdvancing(c: Config, s: Store, k: nat, iv: bytes, id: string)
    requires k in s.storers
    ensures Keeps(s.entries, AdvanceStore(c, s, k, iv, id).entries)
  {
    hide CreateEntry, FingerprintPan;
    RowsStayCreating(c, s, k, s.storers[k].input, iv, id);
  }

  lemma RowsStayCreating(c: Config, s: Store, k: nat, i: StoreInput, iv: bytes, id: string)
    ensures Keeps(s.entries, CreateEntry(c, s, k, i, iv, id).entries)
  {
    hide NewEntry;
  }

  lemma {:induction false} RowsStayRun(c: Config, s: State, events: seq<Event>)
    ensures Keeps(s.store.entries, Run(c, s, events).store.entries)
    decreases |events|
  {
    if events != [] {
      RowsStay(c, s.store, events[0]);
      hide ApplyStore;
      RowsStayRun(c, Apply(c, s, events[0]), events[1..]);
    }
  }

  lemma RowsStayBetween(c: Config, s0: State, events: seq<Event>, m: nat, n: nat)
    requires m <= n <= |events|
    ensures Keeps(Before(c, s0, events, m).entries, Before(c, s0, events, n).entries)
  {
    assert events[..n] == events[..m] + events[m..n];
    RunAppend(c, s0, events[..m], events[m..n]);
    RowsStayRun(c, Run(c, s0, events[..m]), events[m..n]);
  }

  // --- the race --------------------------------------------------------------------------------------

  /**
   Row `row`, in the table before event n, was made by another call and has the card of call k
   and was not there when k looked its card up; or has its key and was not there when k looked
   that up, which it does not if the key is empty.
   */
  ghost predicate Overtook(c: Config, s0: State, events: seq<Event>, n: nat, k: nat, i: StoreInput, row: string)
    requires n <= |events|
  {
    var s := Before(c, s0, events, n);
    && row in s.entries && row in s.origin && s.origin[row].call != k
    && (|| (HoldsCard(c, s.entries[row], i)
            && exists m: nat ::
                 m < n && MissesCardAt(c, s0, events, m, k, i) && row !in Before(c, s0, events, m).entries)
        || (HoldsKey(s.entries[row], i)
            && (i.idempotencyKey == Some("")
                || exists m: nat ::
                     m < n && MissesKeyAt(c, s0, events, m, k, i) && row !in Before(c, s0, events, m).entries)))
  }

  /** Event n is call k's create: its answer is lost, its id is taken, or another call was faster. */
  ghost predicate LosesRace(c: Config, s0: State, events: seq<Event>, n: nat, k: nat) {
    && n < |events| && IsCreate(Before(c, s0, events, n), events[n], k)
    && var s, e := Before(c, s0, events, n), events[n];
       e.StoreLost? || e.id in s.entries || exists row :: Overtook(c, s0, events, n, k, s.storers[k].input, row)
  }

  lemma RivalsOvertook(c: Config, s0: State, events: seq<Event>, n: nat, k: nat, row: string)
    requires Assumed(c) && VaultStore.Inv(c, s0.store) && k !in s0.store.storers && n < |events|
    requires var s := Before(c, s0, events, n);
             IsCreate(s, events[n], k) && Rivals(c, s, row, k, s.storers[k].input)
    ensures Overtook(c, s0, events, n, k, Before(c, s0, events, n).storers[k].input, row)
  {
    hide MissesCard, MissesKey, FingerprintPan, VaultStore.Inv;
    var s := Before(c, s0, events, n);
    var i := s.storers[k].input;
    LookupsWereMade(c, s0, events[..n], k);
    if HoldsCard(c, s.entries[row], i) {
      var m :| MissesCardAt(c, s0, events[..n], m, k, i);
      Prefixes(c, s0, events, m, n, k, i);
      NotThereYet(c, s0, events, m, n, k, i, row);
    } else if i.idempotencyKey != Some("") {
      var m :| MissesKeyAt(c, s0, events[..n], m, k, i);
      Prefixes(c, s0, events, m, n, k, i);
      NotThereYet(c, s0, events, m, n, k, i, row);
    }
  }

  /** A lookup made in vain shows that there was no such row. */
  lemma NotThereYet(c: Config, s0: State, events: seq<Event>, m: nat, n: nat, k: nat, i: StoreInput, row: string)
    requires Assumed(c) && VaultStore.Inv(c, s0.store) && m < n <= |events|
    requires row in Before(c, s0, events, n).entries
    requires var e := Before(c, s0, events, n).entries[row];
             || (MissesCardAt(c, s0, events, m, k, i) && HoldsCard(c, e, i))
             || (MissesKeyAt(c, s0, events, m, k, i) && HoldsKey(e, i))
    ensures row !in Before(c, s0, events, m).entries
  {
    VaultStore.RunKeeps(c, s0, events[..m]);
    RowsStayBetween(c, s0, events, m, n);
    hide FingerprintPan, Run, VaultStore.RowsOk, VaultStore.StorersOk, VaultStore.CreatorsOk;
  }

  /**
   Over every run, exactly when a call that its checks accept throws: its create's answer is
   lost, or finds its id taken, or finds a row that another call made meanwhile, for the same
   card since its card lookup or under the same key since its key lookup.
   */
  lemma RefusedIffOvertaken(c: Config, ring: KeyRing, clock: int, events: seq<Event>, k: nat)
    requires Assumed(c) && ring.activeVersion in ring.keys
    ensures RefusedLater(Run(c, Init(ring, clock), events).store, k)
            <==> exists n :: LosesRace(c, Init(ring, clock), events, n, k)
  {
    var s0 := Init(ring, clock);
    RefusedIffLost(c, s0, events, k);
    hide Loses, LosesRace, Before;
    forall n | LosesAt(c, s0, events, n, k)
      ensures LosesRace(c, s0, events, n, k)
    {
      LossIsRace(c, s0, events, n, k);
    }
    forall n | LosesRace(c, s0, events, n, k)
      ensures LosesAt(c, s0, events, n, k)
    {
      RaceIsLoss(c, s0, events, n, k);
    }
    assert (exists n :: LosesAt(c, s0, events, n, k)) <==> (exists n :: LosesRace(c, s0, events, n, k));
  }

  lemma LossIsRace(c: Config, s0: State, events: seq<Event>, n: nat, k: nat)
    requires Assumed(c) && VaultStore.Inv(c, s0.store) && k !in s0.store.storers && LosesAt(c, s0, events, n, k)
    ensures LosesRace(c, s0, events, n, k)
  {
    hide Before, Rivals, Overtook, VaultStore.Inv;
    var s := Before(c, s0, events, n);
    if row :| Rivals(c, s, row, k, s.storers[k].input) {
      RivalsOvertook(c, s0, events, n, k, row);
    }
  }

  lemma RaceIsLoss(c: Config, s0: State, events: seq<Event>, n: nat, k: nat)
    requires LosesRace(c, s0, events, n, k)
    ensures LosesAt(c, s0, events, n, k)
  {
    hide Before, HoldsCard, HoldsKey, MissesCardAt, MissesKeyAt;
    var s := Before(c, s0, events, n);
    if row :| Overtook(c, s0, events, n, k, s.storers[k].input, row) {
      assert Rivals(c, s, row, k, s.storers[k].input);
    }
  }

  lemma Then(c: Config, s0: State, events: seq<Event>, s: State, e: Event) returns (events': seq<Event>, s': State)
    requires Run(c, s0, events) == s
    ensures events' == events + [e] && s' == Apply(c, s, e) && Run(c, s0, events') == s'
  {
    events', s' := events + [e], Apply(c, s, e);
    RunAppend(c, s0, events, [e]);
    RunOne(c, s, e);
  }

  /** Two calls with one key: both look the key up, then both look the card up. */
  lemma BothMiss(c: Config, ring: KeyRing, clock: int, i: StoreInput) returns (events: seq<Event>, s: State)
    requires Accepts(i) && HasKey(i)
    ensures Run(c, Init(ring, clock), events) == s
    ensures s.store == Init(ring, clock).store.(storers := map[0 := Storer(i, AtCreate), 1 := Storer(i, AtCreate)])
  {
    hide Accepts, FingerprintPan;
    var s0 := Init(ring, clock);
    events, s := [], s0;
    events, s := Then(c, s0, events, s, StoreCall(0, i));
    events, s := Then(c, s0, events, s, StoreCall(1, i));
    assert s.store.storers == map[0 := Storer(i, AtKey), 1 := Storer(i, AtKey)];
    events, s := Then(c, s0, events, s, StoreStep(0, [], ""));
    events, s := Then(c, s0, events, s, StoreStep(1, [], ""));
    assert s.store.storers == map[0 := Storer(i, AtFp), 1 := Storer(i, AtFp)];
    events, s := Then(c, s0, events, s, StoreStep(0, [], ""));
    events, s := Then(c, s0, events, s, StoreStep(1, [], ""));
    assert s.store.storers == map[0 := Storer(i, AtCreate), 1 := Storer(i, AtCreate)];
  }

  /** A retry that overlaps the call it repeats: the call makes the entry, and the retry throws. */
  lemma OverlappingRetryIsRefused(c: Config, ring: KeyRing, clock: int, i: StoreInput,
                                  iv: bytes, id: string, iv2: bytes, id2: string) returns (events: seq<Event>)
    requires Assumed(c) && ring.activeVersion in ring.keys && Accepts(i) && HasKey(i) && |iv| == |iv2| == IV_LEN
    ensures var t := Run(c, Init(ring, clock), events).store;
            && 0 in t.storers && t.storers[0].at.Stored? && t.storers[0].at.id == id && !t.storers[0].at.deduped
            && 1 in t.storers && t.storers[1] == Storer(i, Refused)
  {
    var s0 := Init(ring, clock);
    var s: State;
    events, s := BothMiss(c, ring, clock, i);
    VaultStore.NewEntryOk(c, ring, i, iv);
    VaultStore.NewEntryOk(c, ring, i, iv2);
    hide NewEntry, Accepts, VaultStore.EntryOk;
    events, s := Then(c, s0, events, s, StoreStep(0, iv, id));
    events, s := Then(c, s0, events, s, StoreStep(1, iv2, id2));
  }
}
