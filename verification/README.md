# Vera, modelled in Dafny

This project models the parts of Vera that decide whether money and card data move
correctly, and proves what they keep.  It is checked with

    dafny verify dfyconfig.toml

Nothing here was executed against the services; every statement below is about the model,
which takes the branches, constants and error cases of the cited lines.

## What is modelled

- **One payment** (`PaymentProtocol`, `PaymentBooks`, `PaymentGuards`, `PaymentWinner`,
  `PaymentRaces`, `PaymentCharges`, `PaymentFailures`, `PaymentExpiry`, `PayService`).  Any number of `/verify` calls drive one
  transaction row from PENDING to a terminal status, while the retention sweep and the read
  path expire it.  The state is the row, the card's ATC counter, the provider's books, the clock
  and a program counter per call; an event is one awaited operation completing, successfully,
  with a refusal, with a failure that had no effect, or with an effect whose answer is lost.
  Every sequence of events is a run, so "for every run" is "for every sequence".
  `Config.atomic` chooses whether `updateStatus` is one step or the read and the write the code
  performs.  `PaymentBooks` holds of every run at both.  `PaymentWinner` and `PaymentCharges`
  hold at both of every run in which no update is overtaken between its read and its write, and
  most of their results of every run in which no AUTHN_STARTED is written over a row already
  under way (both conditions are in `PaymentGuards`); `PaymentRaces` proves for which settings
  that is every run.  `PaymentFailures` says of each operation of a call what the caller is told
  and what the row records when it goes wrong, and `PaymentExpiry` when a row expires, at both.
  `PayService` is the imperative program, try/catch included, proved at both
  granularities to leave exactly the state the step system reaches.
- **The vault** (`VaultProtocol`, `VaultStore`, `VaultRefusals`, `VaultTokens`, `VaultEvents`,
  `VaultPurge`, `VaultSweeps`, `VaultCalls`, `VaultService`, `Envelope`).  Concurrent `storeCard` and
  `consumeRetrievalToken` calls, one event per awaited statement, with key rotation, minting and
  a sweeper in between; a create or a claim may take effect without its caller ever hearing of
  it.
- **AES-CMAC** (`Bytes`, `Cmac`, `CmacStandard`, `CmacBuffers`): the buffer code against NIST
  SP 800-38B, sections 6.1 and 6.2, for any block function in place of AES.
- **The event bus** (`SseBus`, `SseDelivery`): the mutable class against an unbounded log.
- **Wire encodings** (`Hex`, `Utf8`, `ServiceAuth`, `AuthHeaders`, `Arqc`): the signed-request
  header, its parser and its verifier for every header, the canonical string, and the
  cryptogram's keys and MAC input.
- **Placeholder substitution** (`Template`), **tier rules** (`TierRules`) and the two **Luhn
  checks** (`Luhn`).

Cryptography enters as function-valued parameters with stated assumptions
(`Envelope.Correct`, `Cmac.IsBlockFunction`, `Cmac.Injective`, `VaultProtocol.Assumed`,
`ServiceAuth.Assumed`, `Arqc.Assumed`, `Arqc.Separating`); random values, clock readings and the answers of
other systems are arguments or events.

## Where the code does less than it says

Each of these is a concrete run or input, with the exact condition under which the promise
does hold.  The first group happens in the services as they are deployed, under an unlucky
order of events; the second concerns the exported function alone, because no route passes it
such an input.

Within reach of the services:

- `updateStatus` reads and writes in two round trips, so a sweep in between is undone: an
  EXPIRED row goes back to AUTHN_STARTED (`PaymentRaces.StaleWriteUndoesExpiry`).  Histories
  stay inside the transition table, and terminal rows stay as they are, exactly if updateStatus
  is one step (`PaymentRaces.HistoriesArePathsIffAtomic`, `PaymentRaces.TerminalRowsStayIffAtomic`);
  a given run's do exactly if every write finds a status its guard would still let through
  (`PaymentGuards.HistoryIsPathIffGuardsHold`, `PaymentGuards.TerminalRowStaysIffGuardsHold`);
  and of a vaulted card's row only the first update needs to be watched
  (`PaymentWinner.OnlyTheFirstGuardCounts`).
- Two `/verify` calls can both get past the guard, reserve a counter each and mint a token
  each.  A given run has one winner exactly if no AUTHN_STARTED is written over a row that is
  under way (`PaymentWinner.OneWinnerIffEntriesHold`), and then it makes at most one
  reservation, one mint and one capture, and a COMPLETED row exactly one capture
  (`PaymentWinner.SingleWinner`, `PaymentWinner.CompletedMeansOneCapture`).  Every run does
  exactly if updateStatus is one step (`PaymentRaces.AtMostOneWinnerIffAtomic` and its two
  neighbours); of captures, also if the provider honours the idempotency key, as Stripe does
  and the mock provider does not (`PaymentRaces.AtMostOneCaptureIff`,
  `PaymentRaces.CompletedMeansOneCaptureIff`).
- FAILED does not mean "not charged": a charge whose answer is lost is enough
  (`PaymentCharges.FailedMayBeCharged`).  On a run with one winner, a FAILED row is uncharged
  exactly if no charge's answer was lost and every update after a charge succeeded
  (`PaymentCharges.FailedIsUnchargedIffSettled`); on another that is not enough
  (`PaymentCharges.SettledFailedMayBeCharged`), and the rule holds of every run exactly if
  updateStatus is one step (`PaymentCharges.FailedRuleIffAtomic`).
- A call that threw may all the same have completed: if the answer to its last update is lost,
  the row stays COMPLETED, because `fail()` cannot leave that status
  (`PaymentFailures.LostUpdateIsOverwritten`).  And what goes wrong before the try block is
  thrown and recorded nowhere, apart from a card without a vault entry
  (`PaymentFailures.BeforeTheTry`, `PaymentFailures.UnvaultedCallFailsTheRow`).
- A caller that retries with the same idempotency key is promised the same entry, but a retry
  that overlaps the first call can throw (`VaultRefusals.OverlappingRetryIsRefused`).  A call
  that its checks accept throws exactly if its create's answer is lost, its id is taken, or
  another call made a row for its card, or under its key, after it had looked in vain
  (`VaultRefusals.RefusedIffOvertaken`).
- `consumeRetrievalToken` reads its clock one statement before it claims.  Sweeping expired
  tokens is invisible to claiming on every run exactly if the two are one step
  (`VaultPurge.PurgeIsInvisibleIffClockIsFresh`), and on a given run exactly if no claim is
  overtaken by a sweep of its row (`VaultSweeps.SweepIsInvisibleIffNothingIsOvertaken`).
- A call that has claimed its token is told "row gone", token spent and no card, exactly if a
  sweep with a time past the token's expiry fell between its claim and its read
  (`VaultSweeps.RowGoneIffSweptBetween`; `VaultSweeps.SweptUnderClaim` is such a run).
- The header of `state-machine.ts` says any status can fail or expire; the table lets no
  terminal status do either, and STRIPE_CHARGED cannot expire
  (`StateMachine.TerminalIffNoExit` follows the table).  The bus's comment speaks of the last
  event; it replays the last twenty.

Of the exported functions alone:

- An empty idempotency key is stored but never looked up, so a second card with the key `""`
  is refused by the unique column (`VaultStore.EmptyKeyIsNoKey`).  The register route demands
  eight characters (services/vault/src/routes/register.routes.ts:30) and the store route passes
  no key.
- A bus unsubscribe called twice can remove somebody else's subscription
  (`SseDelivery.SecondUnsubIsHarmlessIff`).  The one caller calls it from one `close` handler
  (services/pay/src/routes/payment.routes.ts:10-12).
- The null separators of the MAC input separate exactly when none of the three texts holds a
  NUL (`Arqc.MessageHasOneReadingIff`).  The nonce is made by the service and the currency is
  checked; the schema of the merchant reference (services/pay/src/routes/transactions.routes.ts:25)
  lets a NUL through, but the row goes into a PostgreSQL text column, which takes none.
- The canonical string has one reading exactly when the method holds no newline and the path
  either holds none or has a lower-case letter before the first
  (`ServiceAuth.CanonicalHasOneReadingIff`).  Node's HTTP parser delivers neither a method nor
  a request target with a newline.

## Model

| member | source | states |
|---|---|---|
| StateMachine.PathsAreShort | services/pay/src/transactions/state-machine.ts:30-63 | the rank falls with every change the table allows, so a path is at most as long as its first status's rank, and passes through no terminal status |
| StateMachine.TableIsTheHappyPath | services/pay/src/transactions/state-machine.ts:30-63 | the table allows exactly the next status of the happy path, FAILED from every status that is not terminal, and EXPIRED from those except STRIPE_CHARGED |
| StateMachine.TerminalIffNoExit | services/pay/src/transactions/state-machine.ts:24-74 | the statuses in TERMINAL are exactly those without a way out; every other can still fail; all but STRIPE_CHARGED can still expire |
| PaymentBooks.ChargedRowsWereCharged | services/pay/src/orchestration/post-auth.ts:49-124 | every run, either granularity: STRIPE_CHARGED or COMPLETED implies a capture of this row's amount and currency under its key with the stored provider id, every earlier column set, and the stored cryptogram is that of the stored ATC |
| PaymentBooks.AtMostOneCapture | services/pay/src/orchestration/post-auth.ts:109-115 | every run, either granularity: a provider that honours the key captures at most once |
| PaymentBooks.AtcsAreFresh | services/pay/src/transactions/transaction.service.ts:147-150 | every run, either granularity: the ATCs reserved for this row strictly increase, and so do those of the card's other transactions; every counter value went to exactly one of all these reservations; a stored ATC was reserved for this row |
| PaymentBooks.LateReadIsNeverPending | services/pay/src/transactions/transaction.service.ts:109-126 | every run: a read-path call that returns PENDING has read a clock not past expiresAt, whatever fell between its statements |
| PaymentBooks.ExpiryOrderIsIrrelevant | packages/retention/src/purge.ts:33-42 | sweep and read-path expiry leave the same row in either order |
| PaymentBooks.ExpiredRowsAreUntouched | packages/retention/src/purge.ts:30-42 | every run, either granularity: while the row is PENDING or EXPIRED it has no cryptogram, counter or provider column, and nothing was reserved, minted or captured |
| PaymentExpiry.ExpiredRowsAreLate | services/pay/src/transactions/transaction.service.ts:109-126 | every run, either granularity: an EXPIRED row is past its expiresAt and holds the reason transaction_ttl_elapsed |
| PaymentExpiry.SweepExpiresExactlyTheLate | packages/retention/src/purge.ts:30-42 | any state: a sweep expires the row exactly if it is PENDING and its expiresAt lies before the sweep's time; status and reason apart it writes nothing |
| PaymentExpiry.ReadsReturnWhatWasThere | services/pay/src/transactions/transaction.service.ts:109-126 | every run, whatever falls between a read's statements: the status it returns is one the row had at some moment while the read was under way |
| PaymentGuards.HistoryIsPathIffGuardsHold | services/pay/src/transactions/transaction.service.ts:133-139 | either granularity: a run's history is a path exactly if every write half finds a status its guard still lets through |
| PaymentGuards.TerminalRowStaysIffGuardsHold | services/pay/src/transactions/state-machine.ts:24-63 | either granularity: from a terminal row on, row and history stay exactly if every write half finds a status its guard still lets through |
| PaymentGuards.OneStepIsNeverOvertaken | services/pay/src/transactions/transaction.service.ts:133-139 | one-step updateStatus, every run: no update is overtaken, so all of what follows holds |
| PaymentWinner.SingleWinner | services/pay/src/orchestration/post-auth.ts:49-60 | either granularity, every run in which no AUTHN_STARTED is written over a row under way: one reservation, one mint and one capture at most, the first two by the one call that entered; a loser that ended has thrown; a reported COMPLETED is in the row |
| PaymentWinner.OneWinnerIffEntriesHold | services/pay/src/orchestration/post-auth.ts:49-56 | every run, either granularity: at most one call gets past the first update exactly if none is written over a row under way |
| PaymentWinner.OnlyTheFirstGuardCounts | services/pay/src/transactions/transaction.service.ts:133-139 | every run of a vaulted card's row, either granularity: no update is overtaken exactly if no AUTHN_STARTED is written over a row that has left PENDING |
| PaymentWinner.CompletedMeansOneCapture | services/pay/src/orchestration/post-auth.ts:109-124 | either granularity, the same runs: COMPLETED implies exactly one capture, with the payment method and under the provider id the row stores, whatever the provider does with keys |
| PaymentWinner.LoserChangesNothing | services/pay/src/orchestration/post-auth.ts:49-56 | either granularity, every reachable state past PENDING: a losing call's step, if not the write of an overtaken update, moves only that call, and never to fail() |
| PaymentWinner.TerminalRowsStay | services/pay/src/transactions/state-machine.ts:24-63 | either granularity, every run: from a terminal status on, while no update is overtaken, no column is ever rewritten |
| PaymentWinner.HistoriesArePaths | packages/retention/src/purge.ts:30-42 | either granularity, every run in which no update is overtaken: the history is a path of the table from PENDING with at most six changes |
| PaymentRaces.HistoriesArePathsIffAtomic | services/pay/src/transactions/transaction.service.ts:133-139 | all histories are paths exactly if updateStatus is one step |
| PaymentRaces.TerminalRowsStayIffAtomic | services/pay/src/transactions/transaction.service.ts:133-139 | terminal rows stay on every run exactly if updateStatus is one step |
| PaymentRaces.AtMostOneWinnerIffAtomic | services/pay/src/orchestration/post-auth.ts:49-56 | at most one call gets past the guard on every run exactly if updateStatus is one step |
| PaymentRaces.AtMostOneReservationIffAtomic | services/pay/src/orchestration/post-auth.ts:49-60 | at most one ATC is reserved on every run exactly if updateStatus is one step, whatever the provider does |
| PaymentRaces.AtMostOneMintIffAtomic | services/pay/src/orchestration/post-auth.ts:78-99 | at most one retrieval token is minted on every run exactly if updateStatus is one step |
| PaymentRaces.LoserChangesNothingIff | services/pay/src/orchestration/post-auth.ts:49-56 | either granularity, every reachable state past PENDING: a losing call's step moves only that call, exactly unless it is a stale write half that lands; never to fail() |
| PaymentRaces.AtMostOneCaptureIff | services/pay/src/orchestration/post-auth.ts:109-115 | at most one capture on every run exactly if updateStatus is one step or the provider honours keys |
| PaymentRaces.CompletedMeansOneCaptureIff | services/pay/src/orchestration/post-auth.ts:109-124 | COMPLETED implies exactly one capture on every run exactly if updateStatus is one step or the provider honours keys |
| PaymentRaces.StaleWriteUndoesExpiry | services/pay/src/transactions/transaction.service.ts:133-139 | a run whose history is PENDING, EXPIRED, AUTHN_STARTED |
| PaymentRaces.TwoCapturesWithoutKeys | services/pay/src/orchestration/post-auth.ts:49-115 | a run that ends COMPLETED with two captures of one transaction, at the code's granularity and with a provider that ignores keys |
| PaymentCharges.UnchargedIffNoneCharges | services/pay/src/orchestration/post-auth.ts:109-115 | every run, either granularity: the ledger against the charges seen event by event; a step of the next result |
| PaymentCharges.FailedIsUnchargedIffSettled | services/pay/src/orchestration/post-auth.ts:109-150 | either granularity, every run in which no AUTHN_STARTED is written over a row under way: a FAILED row is uncharged exactly if no charge's answer was lost and every update after a charge succeeded |
| PaymentCharges.FailedMayBeCharged | services/pay/src/orchestration/post-auth.ts:135-150 | either granularity: a run that ends FAILED with a capture on the books |
| PaymentCharges.SettledFailedMayBeCharged | services/pay/src/transactions/transaction.service.ts:133-139 | at the code's granularity, a run that settles so and ends FAILED with a capture all the same, because two calls entered |
| PaymentCharges.FailedRuleIffAtomic | services/pay/src/transactions/transaction.service.ts:133-139 | that rule for FAILED rows holds of every run exactly if updateStatus is one step |
| PaymentCharges.LoneCallCompletes | services/pay/src/orchestration/post-auth.ts:31-134 | either granularity: a call whose every operation succeeds leaves exactly this row, one reservation, one mint, this capture under the key charge_ and its id, and the happy path as history; it reports COMPLETED |
| PaymentCharges.ChargeKeysAreDistinct | services/pay/src/orchestration/post-auth.ts:109-115 | two transactions share an idempotency key only if they are one |
| PaymentFailures.UnvaultedCallFailsTheRow | services/pay/src/orchestration/post-auth.ts:38-47 | either granularity, among any other calls: of a card without a vault entry or BIN, a call on a PENDING row throws; if its statements are answered the row is FAILED with card_not_vaulted at the clock's time, and nothing else has changed |
| PaymentFailures.UnvaultedIsNeverCharged | services/pay/src/orchestration/post-auth.ts:38-47 | every run with any number of calls, for such a card: nothing is reserved, minted or captured, the row is PENDING, EXPIRED or FAILED for that reason, and every call that ended threw |
| PaymentFailures.BeforeTheTry | services/pay/src/orchestration/post-auth.ts:38-56 | a first read, AUTHN_STARTED or AUTHN_COMPLETE that fails without effect ends the call, which throws, and moves nothing else |
| PaymentFailures.FailureIsRecorded | services/pay/src/orchestration/post-auth.ts:58-150 | either granularity, any state: a reservation, mint, tokenisation or charge that does not succeed ends the call, a declined charge by returning FAILED and all else by throwing; if the row is not terminal and fail() is answered it is FAILED for that operation's own reason, its other columns as they were |
| PaymentFailures.UpdateFailureIsRecorded | services/pay/src/orchestration/post-auth.ts:74-139 | either granularity, any state: the same of an update of the try block that the database or the table refuses |
| PaymentFailures.LostUpdateIsOverwritten | services/pay/src/orchestration/post-auth.ts:120-150 | either granularity, any state: an update of the try block that lands and loses its answer makes the call throw, and fail() overwrites the status it wrote, except COMPLETED |
| PaymentFailures.LoneCallFails | services/pay/src/orchestration/post-auth.ts:58-150 | either granularity: a lone call of which one remote operation fails leaves a FAILED row with that reason and exactly the columns of the updates before it, and no capture unless a charge's answer was lost |
| PayService.PayService.UpdateStatus | services/pay/src/transactions/transaction.service.ts:128-140 | succeeds exactly if both statements are answered and the table allows the change, and else which of the two errors it throws; the row it leaves, also when the write's answer is lost |
| PayService.PayService.ExpirePendingTransactions | packages/retention/src/purge.ts:33-42 | the row it leaves, with status and reason spelled out, and the count |
| PayService.PayService.ExpireOnRead | services/pay/src/transactions/transaction.service.ts:113-122 | the read path's own expiry: of a row still PENDING, whatever the clock says by then, with its count |
| PayService.PayService.GetTransactionByRlid | services/pay/src/transactions/transaction.service.ts:109-126 | another RLID is not found and nothing touched; else returns the row that is there afterwards, expired by its own update if its time was up, as the read's statements leave it in the step system; PENDING only in time |
| PayService.PayService.GetTransactionForAuthOrThrow | services/pay/src/transactions/transaction.service.ts:195-207 | lets through exactly a known RLID whose row is not terminal, after the read-path expiry, and says which refusal it is |
| PayService.PayService.ReserveAtc | services/pay/src/transactions/transaction.service.ts:147-150 | the counter is bumped unless nothing happened, and its new value is what is returned |
| PayService.PayService.OrchestratePostAuth | services/pay/src/orchestration/post-auth.ts:31-150 | either granularity, statement by statement, a first read that throws, try and fail() included: it leaves the state the step system reaches on the same answers, and ends as that call does |
| VaultStore.OneEntryPerPan | services/vault/src/vault/store.service.ts:45-92 | every run: no two entries hold the same normalised card number |
| VaultStore.OnlyTheKeyCanCrossCards | services/vault/src/vault/store.service.ts:31-77 | every run: a call is handed an entry of its own card number, or one created under its own key |
| VaultStore.FingerprintOfDigits | services/vault/src/vault/fingerprint.ts:12-16 | on digits the fingerprint's own normalisation changes nothing, so raw and stripped numbers fingerprint alike |
| VaultStore.KeyIsSticky | services/vault/src/vault/store.service.ts:31-42 | every run: once a non-empty key has an entry, every later call with it whose checks accept is still to look the key up or is answered with that entry, deduplicated, whatever its card; one they do not accept is refused |
| VaultStore.OneKeyOneCardOneEntry | services/vault/src/vault/store.service.ts:31-77 | every run: if all calls with a key carry one card number, those that name an entry name the same one, though the key may never have been stored |
| VaultStore.EmptyKeyIsNoKey | services/vault/src/vault/store.service.ts:31-42 | a lone reuse-mode call with a key that has a row returns it exactly if the key is non-empty or the card is the row's own |
| VaultRefusals.RefusedIffOvertaken | services/vault/src/vault/store.service.ts:31-92 | every run: a call that its checks accept throws exactly if its create's answer is lost, its id is taken, or another call made a row for its card after its card lookup, or under its key after its key lookup |
| VaultRefusals.OverlappingRetryIsRefused | services/vault/src/vault/store.service.ts:35-92 | a run in which a call makes its entry and a retry with the same key throws |
| VaultTokens.TokensAreSingleUse | services/vault/src/vault/retrieval.service.ts:68-169 | every interleaving: no token is claimed twice; one card per token at most, to the call that claimed it, before expiry, on the minted terms, from the minted entry |
| VaultTokens.SuccessEventsAreCards | services/vault/src/vault/retrieval.service.ts:152-169 | every interleaving: one TOKEN_CONSUMED success for each call that got a card, none for any other |
| VaultTokens.ConsumedCardIsStoredCard | services/vault/src/vault/retrieval.service.ts:112-150 | every reachable vault: a consumed card is the one first stored, digits stripped, Luhn-valid, last4 and bin its own ends, its fingerprint the row's, across key rotations; decryption never fails |
| VaultTokens.ConsumedCardIsAsGiven | services/vault/src/vault/store.service.ts:17-92 | every reachable vault: a consumed card's year is two digits, the last two characters of the two or four first given, its month that given, one of 01 to 12, its name and CVC as given, its number that given without spaces and dashes, its last4 and bin that number's ends |
| VaultTokens.AcceptsIff | services/vault/src/vault/store.service.ts:18-29 | the accepted cards: a checked number, a month of 01 to 12, a year of two or four characters of which the last two are digits |
| VaultEvents.EachCallTellsOnce | services/vault/src/vault/retrieval.service.ts:77-169 | every run: each consume call has emitted exactly one TOKEN_CONSUMED, success with a card and failure when told not found, used, expired or mismatched, and none otherwise |
| VaultEvents.UsedMeansBeaten | services/vault/src/vault/retrieval.service.ts:77-110 | every run: a call told that a token is used was beaten to it by another, and a row marked used was claimed, at the time it is marked with |
| VaultEvents.LoneConsumeIsToldWhy | services/vault/src/vault/retrieval.service.ts:68-169 | every reachable vault: what a lone call is told, and whether it claims, by whether its token was minted, claimed before, past its expiry as minted, or minted on other terms |
| VaultEvents.StoreEventsAreAnswers | services/vault/src/vault/store.service.ts:52-102 | every run: one CREATE for each entry whose creation was answered, one DUPLICATE_REJECTED for each call so rejected, and none for any other |
| VaultCalls.StoreMintConsume | services/vault/src/vault/store.service.ts:17-102 | in any reachable vault: a lone store is answered with a row exactly if its checks accept and its key names a row, or its card does and duplicates are not refused, or a new row can be made; then minting and consuming returns the last4 answered and the number that row was first stored with, which is the number given unless the key named another card's row |
| VaultCalls.LoneStoreSucceedsIff | services/vault/src/vault/store.service.ts:17-102 | any vault that meets the invariant: exactly when a lone store is answered with a row, and that it is the key's row or one that holds the card |
| VaultCalls.RetryFindsTheLostEntry | services/vault/src/vault/store.service.ts:31-42 | after a create whose answer was lost, the same keyed request is answered with that entry and makes no other |
| VaultCalls.StoreAloneResolves | services/vault/src/vault/store.service.ts:31-102 | the three awaits of a lone call add up to: the key's row, else the card's row, else a duplicate error, else a new row |
| VaultCalls.ConsumeAloneAnswers | services/vault/src/vault/retrieval.service.ts:68-169 | the two statements of a lone call add up to one answer per condition, and to the tables it leaves |
| VaultCalls.NewKeySealsNewRows | packages/core/src/encryption.ts:30-41 | any vault: after a rotation to a new version, the row a lone store makes is sealed under that version's key alone, and every row before it is as it was |
| VaultPurge.RunMatches | packages/retention/src/purge.ts:13-19 | forward simulation between the vault with the sweeper and without it, the clock read with the claim |
| VaultPurge.PurgeIsInvisible | packages/retention/src/purge.ts:13-19 | clock read with the claim, every run: same claims in the same order; no call is told anything else but a row gone under its claim, or not found for a miss |
| VaultPurge.PurgeIsInvisibleIffClockIsFresh | services/vault/src/vault/retrieval.service.ts:72-77 | claims are the same on every run exactly if the clock is read with the claim |
| VaultSweeps.SweepIsInvisibleIffNothingIsOvertaken | services/vault/src/vault/retrieval.service.ts:72-97 | every run, wherever claims read their clock: the claims are those of the unswept vault exactly if no claim is overtaken by a sweep of its row; and then no call is told anything else but a row gone under its claim, or not found for a miss |
| VaultSweeps.RowGoneIffSweptBetween | services/vault/src/vault/retrieval.service.ts:83-111 | every reachable vault: a granted claim's read answers row gone exactly if a sweep past the token's expiry fell between the two |
| VaultSweeps.SweptUnderClaim | services/vault/src/vault/retrieval.service.ts:83-111 | such a run, from any vault that holds a card |
| VaultService.VaultService.StoreCard | services/vault/src/vault/store.service.ts:17-102 | the imperative call leaves exactly the state its statements lead to in the step system |
| VaultService.VaultService.MintRetrievalToken | services/vault/src/vault/retrieval.service.ts:14-44 | adds one unused row expiring a TTL from now, or reports a missing entry and changes nothing |
| VaultService.VaultService.ConsumeRetrievalToken | services/vault/src/vault/retrieval.service.ts:68-169 | leaves exactly the state its statements lead to, and the answer for each case |
| VaultService.VaultService.PurgeExpiredRetrievalTokens | packages/retention/src/purge.ts:13-19 | removes exactly the rows past their expiry and counts them |
| Envelope.DecryptUndoesEncrypt | packages/core/src/encryption.ts:30-60 | what was encrypted decrypts under any key ring that still holds its version's key |
| Envelope.EnvelopeIs | packages/core/src/encryption.ts:30-41 | the stored bytes are 1, the IV, the ciphertext and the tag, under the active version; encryption fails exactly if that has no key |
| Envelope.DecryptErrsIff | packages/core/src/encryption.ts:43-60 | each error's exact condition, in the order they are looked for |
| Envelope.DecryptAcceptsOnlyEnvelopes | packages/core/src/encryption.ts:43-60 | decryption succeeds exactly on version, IV, ciphertext and authentic tag, in that layout, under a known key version |
| Cmac.ShiftIsDoublingModulo | packages/core/src/cmac.ts:24-33 | the shift is doubling modulo 2^(8n) of the big-endian value |
| Cmac.SubkeyIsFieldDoubling | packages/core/src/cmac.ts:35-42 | a subkey is the block before it times x in GF(2^128) |
| Cmac.PaddingIsInjective | packages/core/src/cmac.ts:62-76 | padding together with the choice of subkey determines the message, for all lengths |
| Cmac.FormattingIsInjective | packages/core/src/cmac.ts:65-76 | masking the last block loses nothing either |
| Cmac.OneBlockChangesTheMac | packages/core/src/cmac.ts:78-86 | injective cipher: equal-length messages that differ inside exactly one block have different MACs |
| CmacStandard.MacOfWholeBlocks | packages/core/src/cmac.ts:55-86 | a message of whole blocks: one cipher call on the bits of the chain value before the last block, exclusive-or that block, exclusive-or L times x in GF(2^128) |
| CmacStandard.MacOfOtherLengths | packages/core/src/cmac.ts:55-86 | every other length, zero included: the same with the rest of the message, 0x80 and zeros as last block, and L times x twice |
| CmacStandard.MacOfOneBlock | packages/core/src/cmac.ts:55-86 | at most one block: one cipher call on the block, completed if it is not whole, exclusive-or that mask |
| CmacBuffers.LeftShiftOneBit | packages/core/src/cmac.ts:24-33 | the carry loop computes the one-bit left shift |
| CmacBuffers.XorInto | packages/core/src/cmac.ts:44-46 | the exclusive-or in place, also of a buffer with itself |
| CmacBuffers.AesCmac.DeriveSubkeys | packages/core/src/cmac.ts:35-42 | K1 and K2 from the encrypted zero block |
| CmacBuffers.AesCmac.AesCmac | packages/core/src/cmac.ts:55-87 | throws exactly on a key that is not sixteen bytes, else returns the MAC of NIST SP 800-38B for every length, writing nothing shared |
| SseBus.SseBus.Publish | services/pay/src/realtime/sse.service.ts:58-76 | the objects follow the log: buffer trimmed to twenty, every member of the RLID's set written, throwing writes skipped |
| SseBus.SseBus.Subscribe | services/pay/src/realtime/sse.service.ts:78-105 | the objects follow the log: greeting, replay, then membership; a write that throws ends it there, with nobody added |
| SseBus.SseBus.Unsub | services/pay/src/realtime/sse.service.ts:100-103 | the objects follow the log, for any captured set and any number of calls |
| SseBus.SseBus.Forget | services/pay/src/realtime/sse.service.ts:108-110 | the objects follow the log |
| SseDelivery.ReplayIsTheTail | services/pay/src/realtime/sse.service.ts:58-64 | every log: the buffer is the last min(20, n) of the n events since the last forget |
| SseDelivery.EachHearsItsOwn | services/pay/src/realtime/sse.service.ts:58-98 | every log of proper use: a subscriber is written the greeting, that tail, then each later event of its own RLID once and in order, and nothing else |
| SseDelivery.NothingAfterUnsub | services/pay/src/realtime/sse.service.ts:78-105 | and after its unsubscribe nothing more |
| SseDelivery.CutHearsNothingMore | services/pay/src/realtime/sse.service.ts:78-98 | every log of proper use: a subscriber whose connection breaks during the greeting was written that much of it and never anything again |
| SseDelivery.SecondUnsubIsHarmlessIff | services/pay/src/realtime/sse.service.ts:100-103 | any state of the bus: an unsubscribe whose response has left its set already changes no audience exactly if that set has members or its RLID has no subscribers |
| SseDelivery.SecondUnsubSilencesOthers | services/pay/src/realtime/sse.service.ts:100-103 | a run in which a live subscriber misses an event |
| Hex.FromHexUndoesToHex | packages/service-auth/src/index.ts:103-104 | decoding undoes hex printing |
| Hex.SameBytesIffSameUpToCase | services/pay/src/arqc/arqc.service.ts:106-110 | two even-length hex strings spell the same bytes exactly if they agree up to case |
| Hex.ParseUndoesPrint | packages/service-auth/src/index.ts:125-126 | parseInt undoes the decimal printing of every integer |
| Hex.ParseIntIff | packages/service-auth/src/index.ts:125-126 | any string parses to exactly the number that its longest run of digits after an optional sign spells |
| ServiceAuth.ParseAuthorization | packages/service-auth/src/index.ts:112-130 | the loop over the pieces is the parser, malformed pieces included |
| AuthHeaders.ParseIff | packages/service-auth/src/index.ts:112-130 | any header: it parses to a key id, timestamp and signature exactly if it is the scheme, white space and comma-separated assignments, later ones winning, that give it those; else it is malformed |
| AuthHeaders.VerifyAcceptsIff | packages/service-auth/src/index.ts:92-110 | any header and request: accepted as k exactly if it parses to key id k, k has a non-empty secret, the timestamp is within the window and the signature's bytes are the HMAC of the canonical string |
| AuthHeaders.VerifyErrsIff | packages/service-auth/src/index.ts:92-110 | each error's exact condition, in the order they are looked for |
| AuthHeaders.SignedHeader | packages/service-auth/src/index.ts:63-75 | the text of the header a request is sent with |
| AuthHeaders.CanonicalLines | packages/service-auth/src/index.ts:209-212 | method upper-cased, path, timestamp and body hash, a line each |
| ServiceAuth.ParseUndoesPrintIff | packages/service-auth/src/index.ts:67-130 | parsing undoes printing exactly if the key id is non-empty and free of commas and white space |
| ServiceAuth.SignedIsAcceptedIffInWindow | packages/service-auth/src/index.ts:63-110 | a signed request is accepted exactly within the window, and is otherwise told clock_skew |
| ServiceAuth.CanonicalIsInjective | packages/service-auth/src/index.ts:209-212 | for newline-free methods the canonical string determines method up to case, path, timestamp and body hash, and only those |
| ServiceAuth.MethodNewlineIsAmbiguous | packages/service-auth/src/index.ts:209-212 | every method that holds a newline: what follows it can as well, upper-cased, start the path, and the canonical string is the same |
| ServiceAuth.CanonicalHasOneReadingIff | packages/service-auth/src/index.ts:209-212 | a canonical string has one reading among all requests exactly if the method holds no newline and the path none, or a lower-case letter before its first |
| ServiceAuth.LowerCaseLineStaysInThePath | packages/service-auth/src/index.ts:209-212 | such a path: it holds a newline and is still read in one way |
| ServiceAuth.TamperingNeedsACollision | packages/service-auth/src/index.ts:92-110 | a header accepted with another request means the same method, path and body hash, or an HMAC collision, unless the signed request has two readings |
| Utf8.EncodeIsInjective | services/pay/src/arqc/arqc.service.ts:71-87 | UTF-8 is unambiguous |
| Utf8.CharLayout | services/pay/src/arqc/arqc.service.ts:71-87 | per character, the number of bytes, their marks and the number they hold, as in section 3 of RFC 3629 |
| Utf8.ZeroIsNul | services/pay/src/arqc/arqc.service.ts:80-87 | a zero byte is only ever the NUL character |
| Arqc.CardInfoIsInjective | services/pay/src/arqc/arqc.service.ts:67-73 | equal KDF infos exactly for equal card ids and counters |
| Arqc.CardKeyIs | services/pay/src/arqc/arqc.service.ts:45-73 | the card key is derived under vera-card-ac from card id and four counter bytes, and from the BIN's key, which is derived under vera-vimk-v1 from the seed |
| Arqc.CardKeysIff | services/pay/src/arqc/arqc.service.ts:60-73 | an HKDF that keeps input keys and infos apart: two inputs have one card key exactly if BIN, card id and counter agree |
| Arqc.MessageLayout | services/pay/src/arqc/arqc.service.ts:75-93 | where a reader of the bytes finds the amount, the three texts and the counter |
| Arqc.MessageIsInjective | services/pay/src/arqc/arqc.service.ts:75-93 | with NUL-free currency and merchant reference, equal MAC inputs exactly for equal amount, currency, reference, nonce and counter |
| Arqc.MessageHasOneReadingIff | services/pay/src/arqc/arqc.service.ts:80-93 | a MAC input has one reading among all inputs exactly if none of its texts holds a NUL |
| Arqc.ValidateAcceptsTheGenerated | services/pay/src/arqc/arqc.service.ts:103-114 | validation accepts what generation prints in either hex case, and nothing else |
| Arqc.OneCryptogramNeedsACollision | services/pay/src/arqc/arqc.service.ts:95-114 | a cryptogram accepted for two inputs means equal truncated HMACs, and equal MAC inputs only for equal amount, currency, reference, nonce and counter; likewise for what the key is derived from |
| Arqc.OtherCardNeedsACollision | services/pay/src/arqc/arqc.service.ts:60-114 | a cryptogram accepted for two BINs, card ids or counters needs a collision of the first HKDF, the second, or the truncated HMAC |
| Arqc.ValidateThrowsIff | services/pay/src/arqc/arqc.service.ts:75-114 | validation throws exactly for a well-formed candidate and a counter or amount that does not fit its field |
| Arqc.ArqcService.GetSeed | services/pay/src/arqc/arqc.service.ts:37-43 | the cached seed is always the configured one |
| Arqc.ArqcService.BuildMessage | services/pay/src/arqc/arqc.service.ts:75-93 | the buffers concatenate to the MAC input, or an integer does not fit |
| Arqc.ArqcService.GenerateArqc | services/pay/src/arqc/arqc.service.ts:95-100 | the cryptogram of the input, whatever the cache held |
| Arqc.ArqcService.ValidateArqc | services/pay/src/arqc/arqc.service.ts:103-114 | the verdict on the candidate, malformed ones first |
| Template.OneDecomposition | services/vault/src/vault/template.ts:38-51 | exactly one way to cut a template into literals and placeholders so that no literals spell a placeholder: the scanner's |
| Template.SubstituteFillsTheHoles | services/vault/src/vault/template.ts:40-51 | succeeds exactly if every placeholder is known and has a value, literals kept and values put in place; else fails with the first that is not |
| Template.ScanSplitsIff | services/vault/src/vault/template.ts:38-41 | a template scans in two parts exactly if no placeholder lies across the cut |
| Template.SubstituteSplits | services/vault/src/vault/template.ts:40-51 | and then substitutes in two parts, first error first |
| Template.HoleIsReplacedWhole | services/vault/src/vault/template.ts:40-51 | whatever surrounds it, a placeholder gives way to its value, which is not looked at again |
| Template.CardPlaceholders | services/vault/src/vault/template.ts:28-50 | pan, cvc, last4 and bin each stand for their own value, an absent cvc for an error |
| Template.HolderPlaceholders | services/vault/src/vault/template.ts:28-50 | expMonth, expYear and cardholderName likewise |
| Template.UnknownPlaceholders | services/vault/src/vault/template.ts:42-44 | any other name, and no other, is unknown |
| Template.BracedIsPlaceholderIff | services/vault/src/vault/template.ts:38-41 | a name without braces between double braces is a placeholder exactly if it is one or more letters, digits and underscores; otherwise it is left as it is |
| Template.SubstituteHeaders | services/vault/src/vault/template.ts:53-62 | every header's value substituted under its own name, or the first failure |
| TierRules.SuperRefine | packages/programs/src/tier-rules.ts:48-83 | the loop collects the specified issues in order, stopping at an early unbounded rule |
| TierRules.IssuesAreWhatIsWrong | packages/programs/src/tier-rules.ts:48-83 | any non-empty list: exactly what is wrong is reported, once each and in order, up to the first early unbounded rule |
| TierRules.AcceptsIffPartition | packages/programs/src/tier-rules.ts:31-83 | accepted exactly if the half-open ranges, in list order, partition the non-negative integers and every rule's kinds and label are legal |
| TierRules.ParseTierRuleSet | packages/programs/src/tier-rules.ts:111-113 | returns exactly on such lists |
| TierRules.ExactlyOneRuleMatches | packages/programs/src/tier-rules.ts:120-135 | accepted list: negative amounts throw; for any other exactly one rule covers it and is returned |
| TierRules.FirstCoveringRuleMatches | packages/programs/src/tier-rules.ts:120-135 | any list: the first rule that covers the amount, or which of the two errors |
| TierRules.OrderDoesNotMatter | packages/programs/src/tier-rules.ts:120-135 | any permutation of an accepted list gives the same rule |
| TierRules.SummaryStandsForKindsIff | services/pay/src/transactions/tier.ts:42-48 | the tier stands for exactly the kinds it was made from, unless there were none |
| TierRules.TierStandsForItsKinds | services/pay/src/transactions/tier.ts:30-40 | accepted list: every non-negative amount gets a decision whose tier stands for its kinds |
| TierRules.DecisionIsTheCoveringRules | services/pay/src/transactions/tier.ts:30-48 | accepted list: the decision holds the kinds and label of the rule that covers the amount, and the tier those kinds call for |
| TierRules.DefaultsAreAccepted | packages/programs/src/tier-rules.ts:92-105 | the default list is accepted and splits at 10 000 |
| Luhn.Sum | services/vault/src/vault/fingerprint.ts:24-34 | the loop computes the weighted sum of ISO/IEC 7812-1, Annex B |
| Luhn.LuhnValid | services/vault/src/vault/fingerprint.ts:19-36 | accepts exactly stripped numbers of 12 to 19 digits with a sum divisible by ten |
| Luhn.FrontendLuhnValid | services/pay/frontend/src/utils/luhn.ts:4-20 | the same of what is left when every non-digit is dropped |
| Luhn.ChecksIff | services/vault/src/vault/fingerprint.ts:19-36 | what checks: 12 to 19 digits whose sum, read forwards as Annex B of ISO/IEC 7812-1 has it, is a multiple of ten |
| Luhn.StripDropsSpacesAndDashes | services/vault/src/vault/fingerprint.ts:13-20 | a space or dash is dropped wherever it stands, any other character stays in its place |
| Luhn.BackendIsStricter | services/vault/src/vault/fingerprint.ts:19-23 | the backend accepts exactly what the frontend accepts and holds only digits, spaces and dashes |
| Luhn.OneTypedDigitIsDetected | services/vault/src/vault/fingerprint.ts:19-36 | changing any one digit of an accepted number is rejected |
| Luhn.SwapIsDetectedUnless09 | services/vault/src/vault/fingerprint.ts:24-35 | swapping adjacent different digits passes exactly for 0 and 9 |
| Luhn.CheckDigitIsUnique | services/vault/src/vault/fingerprint.ts:24-35 | each prefix has exactly one valid check digit |

## Left out

- PaymentWinner.SingleWinner: false of runs in which an AUTHN_STARTED is written over a row under way; `PaymentWinner.OneWinnerIffEntriesHold` says that its condition is exact for the winner, and the `AtMostOne…Iff` results of `PaymentRaces` for which settings it always holds.
- PaymentWinner.CompletedMeansOneCapture: likewise; `PaymentRaces.CompletedMeansOneCaptureIff` has the settings.
- PaymentWinner.LoserChangesNothing: false of the write of an overtaken update; `PaymentRaces.LoserChangesNothingIff` is exact.
- PaymentWinner.TerminalRowsStay: false of runs in which an update is overtaken; `PaymentGuards.TerminalRowStaysIffGuardsHold` is exact.
- PaymentWinner.HistoriesArePaths: likewise; `PaymentGuards.HistoryIsPathIffGuardsHold` is exact.
- PaymentCharges.FailedIsUnchargedIffSettled: false of runs with two winners; `PaymentCharges.SettledFailedMayBeCharged` is one.
- VaultPurge.RunMatches: the clock read with the claim, from any state; `VaultSweeps.SweepIsInvisibleIffNothingIsOvertaken` covers the code's own order, over every run from the start.
- VaultPurge.PurgeIsInvisible: likewise.
- PayService.PayService.OrchestratePostAuth: the class runs one call with nobody else awake, and publishes nothing; the races are in the step system, which is on values.
- VaultService.VaultService.StoreCard: one call at a time; the races are in `VaultProtocol`.
- SseDelivery.EachHearsItsOwn: heartbeat comments between frames and the text formatSse prints are not modelled.
- Hex.ParseUndoesPrint: unbounded integers; JavaScript loses integers beyond 2^53, and parseInt turns endless digits into Infinity.
- Failures of the vault's lookups, of its token mint and of the sweepers' own statements: the caller throws and the run goes on without it.
- Event publishing inside the orchestration, and the reason texts of failures beyond a name for each cause.
- createTransaction and the WebAuthn services: single branches or calls into Palisade.
- Registration challenges and their sweep: single use rests on Palisade's code, which is not part of this model.
- The Palisade, vault and proxy HTTP clients, Express routing, middleware and both frontends apart from the Luhn check: plumbing.
- AES, HMAC, HKDF, SHA-256, GCM, base64, JSON and nanoid: parameters with stated assumptions; retrieval tokens are assumed fresh.
- StripeProvider and MockProvider: one provider with a ledger, which honours idempotency keys or does not.
- Strings are sequences of Unicode scalar values, so unpaired surrogates and lengths in UTF-16 units are not modelled; case mapping is that of the letters A to Z.
- Names an object inherits from its prototype, as key ids or header names.
- zod's own checks of types and non-integers, and whether it runs the refinement on an empty list; either way an empty list is refused.
- packages/handoff: the shape of service-auth with less in it.
