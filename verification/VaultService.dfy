/**
 The vault's own methods, as the imperative code writes them: storeCard, mintRetrievalToken,
 consumeRetrievalToken and purgeExpiredRetrievalTokens over the two tables.  Each leaves
 exactly the state that its statements, run with nobody else awake, lead to in VaultProtocol,
 so every sequence of calls is one of its runs.
 */
module VaultService {
  import opened Prelude
  import opened Text
  import opened Bytes
  import Luhn
  import opened Envelope
  import opened VaultProtocol
  import opened VaultCalls

  class VaultService {
    const c: Config
    var entries: map<string, Entry>
    var byKey: map<string, string>
    var byFp: map<string, string>
    var ring: KeyRing
    var storeLog: seq<StoreEvent>
    var rows: map<string, Token>
    var consumeLog: seq<Consumed>
    var clock: int
    // The histories of VaultProtocol; k names a call.
    ghost var storers: map<nat, Storer>
    ghost var origin: map<string, Origin>
    ghost var consumers: map<nat, Consumer>
    ghost var minted: map<string, Token>
    ghost var claims: seq<Claim>

    constructor (c: Config, ring: KeyRing, clock: int)
      ensures this.c == c && World() == Init(ring, clock)
    {
      this.c, this.ring, this.clock := c, ring, clock;
      entries, byKey, byFp, rows := map[], map[], map[], map[];
      storeLog, consumeLog := [], [];
      storers, origin, consumers, minted, claims := map[], map[], map[], map[], [];
    }

    ghost function World(): State
      reads this
    {
      State(Store(entries, byKey, byFp, ring, storeLog, storers, origin),
            Tokens(rows, consumers, consumeLog, minted, claims), clock)
    }

    /** The row goes in, with its unique columns, and the CREATE event goes out. */
    method InsertRow(id: string, row: Entry, i: StoreInput, ghost k: nat)
      requires row.idempotencyKey == i.idempotencyKey
      modifies this
      ensures World() == old(World()).(store := Insert(old(World().store), k, i, id, row))
    {
      entries, byFp := entries[id := row], byFp[row.panFingerprint := id];
      if row.idempotencyKey.Some? {
        byKey := byKey[row.idempotencyKey.value := id];
      }
      storeLog := storeLog + [Create(id)];
      storers, origin := storers[k := Storer(i, Stored(id, row.panLast4, false))], origin[id := Origin(k, i)];
    }

    /** prisma.vaultEntry.create, after encrypting; it throws if a unique column is taken. */
    method CreateRow(pan: string, expYear: string, fp: string, i: StoreInput, iv: bytes, id: string, ghost k: nat)
      returns (r: StorePc)
      requires pan == Luhn.Strip(i.pan) && expYear == ShortYear(i.expiryYear) && fp == FingerprintPan(c, pan)
      requires |pan| >= 6
      modifies this
      ensures World() == old(World()).(store := CreateEntry(c, old(World().store), k, i, iv, id))
      ensures k in storers && r == storers[k].at
    {
      hide Encrypt, FingerprintPan, Luhn.Strip, ShortYear;
      var enc := Encrypt(c.primitives, c.stringify(pan, i.cvc), ring, iv);
      if enc.Err? {
        storers := storers[k := Storer(i, Refused)];
        return Refused;
      }
      var panLast4, panBin := pan[|pan| - 4..], pan[..6];
      var row := Entry(panLast4, panBin, i.cardholderName, i.expiryMonth, expYear,
                       enc.value.ciphertext, enc.value.keyVersion, fp, i.idempotencyKey);
      if id in entries || fp in byFp || (i.idempotencyKey.Some? && i.idempotencyKey.value in byKey) {
        storers := storers[k := Storer(i, Refused)];
        return Refused;
      }
      InsertRow(id, row, i, k);
      r := Stored(id, panLast4, false);
    }

    method StoreCard(i: StoreInput, iv: bytes, id: string, ghost k: nat) returns (r: StorePc)
      requires |iv| == IV_LEN && k !in storers
      modifies this
      ensures World() == old(World()).(store := StoreAlone(c, old(World().store), k, i, iv, id))
      ensures k in storers && r == storers[k].at
    {
      hide StoreAlone, CreateEntry, FingerprintPan;
      ghost var s := World().store;
      StoreAloneResolves(c, s, k, i, iv, id);
      var pan := Luhn.Strip(i.pan);
      var luhn := Luhn.LuhnValid(pan);
      KeepAll(pan, Luhn.Significant);
      if !luhn || !ValidMonth(i.expiryMonth) {
        storers := storers[k := Storer(i, Refused)];
        return Refused;
      }
      var expYear := if |i.expiryYear| == 4 then i.expiryYear[2..] else i.expiryYear;
      if |expYear| != 2 || !AllDigits(expYear) {
        storers := storers[k := Storer(i, Refused)];
        return Refused;
      }
      var fp := FingerprintPan(c, pan);
      if i.idempotencyKey.Some? && i.idempotencyKey.value != "" && i.idempotencyKey.value in byKey {
        var prior := byKey[i.idempotencyKey.value];
        r := Stored(prior, if prior in entries then entries[prior].panLast4 else "", true);
        storers := storers[k := Storer(i, r)];
        return;
      }
      if fp in byFp {
        var existing := byFp[fp];
        if i.onDuplicate == Some(ErrorOnDuplicate) {
          storeLog := storeLog + [DuplicateRejected(existing)];
          r := Duplicate(existing);
        } else {
          r := Stored(existing, if existing in entries then entries[existing].panLast4 else "", true);
        }
        storers := storers[k := Storer(i, r)];
        return;
      }
      r := CreateRow(pan, expYear, fp, i, iv, id, k);
    }

    /** `token` is the fresh nanoid; None is vault_entry_not_found. */
    method MintRetrievalToken(entryId: string, amount: int, currency: string, token: string)
      returns (expiresAt: Option<int>)
      requires token !in minted
      modifies this
      ensures World() == Apply(c, old(World()), MintToken(entryId, amount, currency, token))
      ensures expiresAt == if entryId in entries then Some(clock + c.ttl) else None
      ensures rows == if entryId in entries
                      then old(rows)[token := Token(amount, currency, entryId, clock + c.ttl, None)] else old(rows)
    {
      if entryId !in entries {
        return None;
      }
      var row := Token(amount, currency, entryId, clock + c.ttl, None);
      rows := rows[token := row];
      minted := minted[token := row];
      return Some(row.expiresAt);
    }

    method ConsumeRetrievalToken(token: string, amount: int, currency: string, k: nat) returns (r: ConsumePc)
      requires k !in consumers
      modifies this
      ensures r == Answer(c, old(World().store), old(rows), clock, token, amount, currency)
      ensures World() == old(World()).(tokens :=
                ConsumeAlone(c, old(World().store), old(World().tokens), clock, k, token, amount, currency))
    {
      hide ConsumeAlone, CardOf, Decrypt;
      ghost var s, t := World().store, World().tokens;
      ConsumeAloneAnswers(c, s, t, clock, k, token, amount, currency);
      ghost var o := Consumer(token, amount, currency, clock, AtClaim);
      var now := clock;
      var count := 0;
      if token in rows && rows[token].usedAt.None? && rows[token].expiresAt > now {
        rows, count := rows[token := rows[token].(usedAt := Some(now))], 1;
        claims := claims + [Claim(k, token, now)];
      }
      if count != 1 {
        consumeLog := consumeLog + [Consumed(k, token, false)];
        r := Failed(if token !in rows then NotFound
                    else if rows[token].usedAt.Some? then AlreadyUsed else TokenExpired);
      } else if rows[token].entryId !in entries {
        r := Failed(RowGone);
      } else {
        var row := rows[token];
        var entry := entries[row.entryId];
        if row.amount != amount || row.currency != currency {
          consumeLog := consumeLog + [Consumed(k, token, false)];
          r := Failed(Mismatch);
        } else {
          var plaintext := Decrypt(c.primitives, Payload(entry.encryptedPan, entry.keyVersion), ring);
          if plaintext.Err? {
            r := Failed(Undecryptable);
          } else {
            consumeLog := consumeLog + [Consumed(k, token, true)];
            r := Got(row.entryId, CardOf(c, entry, plaintext.value));
          }
        }
      }
      consumers := consumers[k := o.(at := r)];
    }

    /** deleteMany where expiresAt < now. */
    method PurgeExpiredRetrievalTokens(now: int) returns (count: nat)
      requires now <= clock
      modifies this
      ensures World() == Apply(c, old(World()), PurgeTokens(now))
      ensures count == |set token | token in old(rows) && old(rows)[token].expiresAt < now|
    {
      count := |set token | token in rows && rows[token].expiresAt < now|;
      rows := map token | token in rows && rows[token].expiresAt >= now :: rows[token];
    }
  }
}
