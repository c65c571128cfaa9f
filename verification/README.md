# Wallet manager: a verified model

A Dafny model of the wallet-management service: custody wallets on Bitcoin, Solana and five EVM chains, a
withdrawal saga (policy check, nonce or outpoint reservation, signing, broadcast, confirmation, reorg), an
in-memory store with reentrant locking and transactions, an audit outbox, a balance ledger, key rotation,
receive-address rotation, and address derivation behind a cache.

`dafny verify dfyconfig.toml` checks the whole project.

## How it is organised

| files | what they hold |
|---|---|
| `Prelude`, `Domain`, `Text`, `Decimals`, `DecimalText`, `Sequences` | shared values, joined text keys, integers and decimals as text, scans and insertions |
| `Rlp`, `EvmAddress`, `Eip155`, `TxBuilder` | transaction bytes: RLP with an independent decoder, address text, signing and assembly |
| `Utxos`, `Nonces`, `DedupKeys` | the three shared resources of the saga and their tables |
| `Saga` | the saga as a step system: every store write and every outside answer is a step of its own, and steps of different withdrawals interleave |
| `SagaShape`, `SagaNonce`, `SagaUtxo`, `SagaDedup` | what every step keeps, and for the steps that can break it, exactly when |
| `SagaBacking`, `SagaCover`, `SagaRecord` | what stands behind a held outpoint, that what is spent covers the amount, and what the stored tables tell about who holds an outpoint |
| `SagaTheorems` | the results over whole runs |
| `SagaCounterexample`, `SagaReorg`, `SagaDuplicates` | runs that reuse a nonce, spend an outpoint twice or admit a duplicate, and exactly when they exist |
| `SagaSteps`, `WithdrawalService`, `ServiceSafety` | the service methods as imperative code, each state of which is a reachable saga state |
| `ReentrantLock`, `KeyMappings` | the store's locking at mutex granularity; key rotation |
| `StoreView` | the store's twelve tables as a reader sees them, and what each operation does to them |
| `StoreRows`, `StoreTables`, `TxStore` | the same tables as row objects with pointers and slices on the heap, every operation as it writes them, snapshot and rollback |
| `TxBodies`, `StoredBalances` | transaction bodies that branch on replies and nest; the balance service's transactions, and the service over the store |
| `SagaStore`, `StoredOutbox` | the saga's and the outbox's tables as rows of the store, over every run |
| `AuditOutbox`, `AuditOverlap`, `AuditEmitter` | the outbox as a step system, what overlapping emitters lead to, and the emitter as imperative code over it |
| `Rotation`, `Derivers`, `Balances` | address rotation under interleaving, cached derivation, the balance ledger |

Mutable parts of the source are classes with `modifies` clauses and loops; each method is proved against a
function of the old state, and the laws are lemmas about those functions. Concurrency is modelled by step
systems, with lemmas over every run.

## What became a parameter

Clocks, new UUIDs and lock tokens, the answers of the policy engine, signer, gateway and audit sink, the
outcome of each try at a lock, Keccak-256, public key derivation, decimal text, and the Bitcoin and Solana
serialisers are parameters of the members that use them. UUIDs are 36-character texts without `|`. Amounts
are integers in selection and exact reals in the ledger.

## Where the code does not do what is written about it

The model follows the code.

- Failing a withdrawal does not look at its state. After an accepted broadcast it can hand the nonce back while
  a node already has the transaction; the next withdrawal then reuses it. For an accepted row this happens exactly
  when the wallet's counter stands one above the row's nonce (`SagaNonce.AcceptedFailClashesIff`), for a SIGNED row
  never, and for a row whose reservation was handed back before exactly when rows and counter say so, provided
  nothing is under way on the wallet (`SagaNonce.NextReservationClashesIff`).
  `SagaCounterexample.FailAfterBroadcastReusesNonce` gives the run, and with the EVM builder both accepted byte
  strings decode to the same nonce (`SagaCounterexample.ReusedNonceDecodes`).
- Failing a withdrawal is said to unlock its outpoints; the code passes none. The outpoints of a SIGNED row stay
  locked with no owner, and no later withdrawal can select them (`SagaTheorems.FailStrandsForGood`);
  `SagaUtxo.StrandedIff` says exactly which steps strand an outpoint.
- A reorg frees the outpoints of a transaction that nodes may still have. Two accepted broadcasts can then share an
  outpoint, exactly when the reorg names one that is on record: marked as spent in the outpoint table, or locked
  there and listed by a SIGNED row. For locked outpoints this presumes that no call is under way on their wallet;
  spent and free ones are decided in every state (`SagaReorg.ReorgDoubleSpendsIff`,
  `SagaReorg.SpentReorgDoubleSpends`). Callers that look first are safe (`SagaRecord.CheckedRestoresAreSafe`).
  `SagaReorg.ReorgAfterBroadcastSpendsTwice` gives the run.
- A second live request with the same key is said to be refused. Failing a closed row, or a reorg of a confirmed
  one, lets a second one in or revives one (`SagaDuplicates`); without those two a create is refused exactly for a
  live duplicate (`SagaTheorems.RefusedIffDuplicate`).
- A confirmation is said to move value from pending to confirmed; the code adds to confirmed and leaves pending, so
  the value moves exactly when it is zero (`Balances.MovedIffZero`).
- A Bitcoin derivation path is said to have the form `m/84'/0'/0'/<change>/<index>`; the parser accepts any three
  pieces in the middle (`Derivers.ParsesIff`), and of the paths it accepts those of the documented form are the ones
  that start with `m/84'/0'/0'/` (`Derivers.Bip84Iff`).
- Audit order per wallet needs emitters of one wallet to take turns: numbering and storing are two store calls. An
  emitter that does not wait its turn can always lead to deliveries out of order, and one that does never
  (`AuditOverlap.TurnsAreNeeded`).

## Model

| member | source | states |
|---|---|---|
| `SagaTheorems.AcceptedNoncesDiffer` | internal/withdrawal/withdrawal.go:167-305 | over every interleaved run, with arbitrary outside answers and outside reservations and Fail only where safe, two accepted EVM broadcasts of one wallet RLP-decode to different nonces |
| `SagaTheorems.NonceRun` | internal/nonce/nonce.go:32-69 | over the same runs every held nonce is below its counter and no two holders (withdrawals, accepted broadcasts, outside callers) share one |
| `SagaTheorems.SignedOnlyIsSafe` | internal/withdrawal/withdrawal.go:331-352 | callers that fail only SIGNED rows meet the condition under which nonces stay distinct |
| `SagaNonce.NextReservationClashesIff` | internal/withdrawal/withdrawal.go:331-352 | after a Fail the wallet's next reservation hands out a nonce in use if and only if the stored rows and the counter say so: the row is not SIGNED, its nonce is one below the counter, and a row that is SIGNED or has gone to a node uses that nonce; for SIGNED and accepted rows in every state, for others when the wallet is at rest |
| `SagaNonce.AcceptedFailClashesIff` | internal/withdrawal/withdrawal.go:331-352 | for an accepted EVM row with nonce n the next reservation after a Fail clashes if and only if the counter is n + 1 |
| `SagaTheorems.CheckedFailsAreSafe` | internal/withdrawal/withdrawal.go:331-352 | callers that look at rows and counter before a Fail meet the condition under which nonces stay distinct, over every run whose accepted transactions have hashes |
| `SagaNonce.NonceStep` | internal/withdrawal/withdrawal.go:167-378 | every single step of any withdrawal keeps nonce ownership exclusive, a Fail provided it is safe |
| `SagaCounterexample.FailAfterBroadcastReusesNonce` | internal/withdrawal/withdrawal.go:331-352 | from any state, for any EVM wallet and any two sendable requests, a run in which the gateway accepts two transactions with one nonce |
| `SagaCounterexample.ReusedNonceDecodes` | internal/withdrawal/withdrawal.go:331-352 | the same with the EVM builder in full: the two accepted byte strings decode to one nonce, which is what `SagaTheorems.AcceptedNoncesDiffer` excludes for safe callers |
| `SagaTheorems.OutpointsExclusive` | internal/withdrawal/withdrawal.go:197-287 | with listing and locking as separate interleaved steps and restores only of unheld outpoints, no outpoint is reserved by two SIGNED withdrawals, spent by two accepted broadcasts, or both, and each such outpoint is locked or spent in the table |
| `SagaTheorems.UtxoRun` | internal/utxo/utxo.go:29-69 | over the same runs, with Fail from any state, every held outpoint is locked or spent and has one holder |
| `SagaTheorems.ReorgFreeIsSafe` | internal/withdrawal/withdrawal.go:356-369 | runs without reorgs and outside restores meet the condition for exclusive outpoints |
| `SagaUtxo.UtxoStep` | internal/storage/memstore/memstore.go:454-519 | every step other than a reorg keeps each held outpoint exclusive and locked or spent in the table |
| `SagaRecord.ReorgKeepsIffOffRecord` | internal/withdrawal/withdrawal.go:356-369 | a reorg keeps them so if and only if none of the outpoints it frees is spent in the table, or locked there and listed by a SIGNED row, with the wallets of the locked ones at rest |
| `SagaRecord.HeldIffOnRecord` | internal/storage/memstore/memstore.go:454-519 | over such states an outpoint is held by a withdrawal or an accepted broadcast if and only if table and rows say so |
| `SagaRecord.RecordedRun` | internal/withdrawal/withdrawal.go:259-305 | over every run that restores nothing held, what is marked spent is spent by an accepted broadcast, and what an accepted broadcast spends is marked but for a call about to do so |
| `SagaRecord.SpentIsHeld` | internal/withdrawal/withdrawal.go:356-369 | whatever calls are under way, a restore that names a spent outpoint frees a held one, and one of free outpoints only frees none |
| `SagaRecord.CheckedRestoresAreSafe` | internal/withdrawal/withdrawal.go:356-369 | callers that look at the outpoint table and the rows before a restore meet the condition for exclusive outpoints |
| `SagaBacking.BackedRun` | internal/utxo/utxo.go:29-54 | over every run, each held outpoint and each outpoint on a row is tracked for the wallet of its withdrawal, and what is held is worth something |
| `SagaReorg.ReorgDoubleSpendsIff` | internal/withdrawal/withdrawal.go:356-369 | after any run that restored nothing held, and a further reorg or outside restore: two accepted broadcasts that share an outpoint can be reached without another restore if and only if this one names an outpoint that is spent in the table, or locked there and listed by a SIGNED row; for builders and signers that answer, and with the wallets of the locked outpoints at rest |
| `SagaReorg.SpentReorgDoubleSpends` | internal/withdrawal/withdrawal.go:356-369 | whatever calls are under way, naming a spent outpoint leads to such a double spend and naming free ones only does not |
| `SagaReorg.DoubleSpendIff` | internal/withdrawal/withdrawal.go:356-369 | the equivalence from every state that meets the invariants |
| `SagaReorg.ReorgAfterBroadcastSpendsTwice` | internal/withdrawal/withdrawal.go:356-369 | from any state and for any free outpoint of a Bitcoin wallet, a run in which the gateway accepts two transactions that spend it |
| `SagaReorg.WillingWorld` | internal/withdrawal/withdrawal.go:212-247 | builders and signers that answer exist, for any set of wallets |
| `SagaTheorems.FailStrandsForGood` | internal/withdrawal/withdrawal.go:331-352 | a Fail of a SIGNED row leaves each of its outpoints locked with no owner, after any further run without restores |
| `SagaUtxo.StrandedIff` | internal/withdrawal/withdrawal.go:331-352 | which single steps leave an outpoint locked with no owner, and which undo it, both exactly |
| `SagaTheorems.SagaSafety` | internal/withdrawal/withdrawal.go:95-369 | in every run an accepted broadcast belongs to an approved withdrawal, its signer was asked for exactly the payload built from its own request and reservation, its bytes are assembled from the answer to that, and it is the only one of that withdrawal |
| `SagaTheorems.SignatureCameFromSigner` | internal/withdrawal/withdrawal.go:221-238 | the payload and answer on record are those of a signing step of the run |
| `SagaTheorems.SentIsWhatWasSigned` | internal/withdrawal/txbuilder.go:117-147 | over every run with the EVM builder: the payload the signer was asked for is the hash of the preimage read back from the accepted bytes |
| `SagaTheorems.AcceptedPays` | internal/withdrawal/txbuilder.go:117-147 | over every run with the EVM builder: the accepted bytes decode to a transfer of its own request's amount to its own request's address |
| `SagaCover.AcceptedIsCovered` | internal/withdrawal/withdrawal.go:167-307 | over every run, whatever the callers do: an accepted Bitcoin broadcast spends at least one outpoint, distinct ones of its own wallet, worth the requested amount together and less than it without the last |
| `SagaCover.SelectionCovers` | internal/utxo/utxo.go:29-54 | selection from a listing taken earlier covers the amount in the table as it is now |
| `SagaTheorems.ApprovalCameFromPolicy` | internal/withdrawal/withdrawal.go:129-163 | a withdrawal counts as approved only if the run contains an answer of the policy engine about it that is no error and holds an approving decision |
| `SagaTheorems.DedupRun` | internal/storage/memstore/memstore.go:593-692 | the in-flight set is exactly the set of keys of live rows and each key has one live row, over every run that meets the per-step condition |
| `SagaTheorems.LiveFailsAreSafe` | internal/withdrawal/withdrawal.go:331-369 | callers that fail only live rows and reorg no confirmed one meet that condition |
| `SagaDedup.DedupStep` | internal/storage/memstore/memstore.go:669-692 | a step leaves set and rows in agreement if and only if it neither fails a closed row whose key is in use again nor revives a closed row |
| `SagaDedup.RefusedIffLiveTwin` | internal/storage/memstore/memstore.go:593-603 | a create is refused as a duplicate if and only if a live row asks for the same wallet, address, amount and asset, for fields without the separator |
| `SagaTheorems.RefusedIffDuplicate` | internal/storage/memstore/memstore.go:593-603 | over every run of callers that fail only live rows and reorg no confirmed one: a create with a new id is refused if and only if a live row asks for the same |
| `SagaDuplicates.FailOfClosedRowAdmitsTwin` | internal/storage/memstore/memstore.go:669-692 | from any state, a run in which failing a closed row lets two live rows share a key |
| `SagaDuplicates.ReorgOfConfirmedRowRevivesTwin` | internal/withdrawal/withdrawal.go:356-369 | from any state, a run in which a reorg of a confirmed row does |
| `SagaShape.NextOk` | internal/withdrawal/withdrawal.go:167-305 | every step of a withdrawal keeps its row, its call's local values and its history consistent: what is signed is assembled from what was reserved |
| `SagaShape.ShapeNext` | internal/withdrawal/withdrawal.go:95-369 | the same for the whole state, including the log of accepted broadcasts |
| `DedupKeys.KeyUniqueIff` | internal/storage/memstore/memstore.go:916-918 | no other request shares a request's in-flight key if and only if none of its fields contains the separator |
| `DedupKeys.KeyInjective` | internal/storage/memstore/memstore.go:916-918 | on fields without the separator keys are equal exactly for equal requests |
| `ServiceSafety.ServiceIsSafe` | internal/withdrawal/withdrawal.go:95-369 | at every point of the running service's life, the withdrawal of an accepted transaction was created with an answer that is no error and approves, its bytes are signed over the payload built from its own request and assembled from that signature, and there is one per withdrawal |
| `ServiceSafety.ServicePays` | internal/withdrawal/txbuilder.go:117-147 | whatever the callers do, what the service broadcasts for an EVM wallet transfers the amount of the stored request to the address of the stored request |
| `ServiceSafety.ServiceCovers` | internal/withdrawal/withdrawal.go:95-369 | what the running service broadcasts for a Bitcoin wallet spends outpoints of its table that cover the amount, and no more of them than needed |
| `ServiceSafety.ServiceNoncesDiffer` | internal/withdrawal/withdrawal.go:167-305 | at every point of the life of a service whose callers fail only SIGNED rows, two accepted EVM transactions of a wallet decode to different nonces |
| `ServiceSafety.ServiceOutpointsExclusive` | internal/withdrawal/withdrawal.go:197-369 | at every point of the life of a service whose callers reorg only what table and rows allow, no outpoint is reserved or spent twice |
| `ServiceSafety.ServiceKeysAreLive` | internal/storage/memstore/memstore.go:593-692 | with callers that fail only rows that are not closed and reorg no CONFIRMED one, the in-flight set is exactly the set of keys of stored rows that are not closed, each key with one row |
| `ServiceSafety.CarefulLooksAtTables` | internal/withdrawal/withdrawal.go:331-369 | all that callers have to check for these three is stored: the row's state before a Fail, and between calls that state, the outpoint store and the rows before a reorg |
| `WithdrawalService.Service.Create` | internal/withdrawal/withdrawal.go:95-163 | succeeds exactly for a usable known wallet, a new id and a free key; the row is WHITELISTED exactly when the answer is no error and its decision approves, and otherwise FAILED with the decision's reason, or "policy_error", and its key freed; the decision id is kept either way; errors change nothing |
| `WithdrawalService.Service.ConstructAndSign` | internal/withdrawal/withdrawal.go:167-256 | refuses rows that are not whitelisted; on success the row is SIGNED with its reservation and exactly the bytes assembled from it, and the counter or the outpoints moved accordingly; on every failure, on any chain, each outpoint has its old lock state and each counter its old number, and the key leaves the in-flight set exactly when the row is failed; no other row is touched and the state is a reachable saga state |
| `WithdrawalService.Service.BuildAndSign` | internal/withdrawal/withdrawal.go:212-247 | the outcome is a function of the builder's, signer's and assembler's answers; on success only the row changes; on every failure nonce and outpoints are handed back and the row is failed with the matching reason |
| `WithdrawalService.Service.Reserve` | internal/withdrawal/withdrawal.go:187-210 | an EVM wallet gets the counter's next number, a Bitcoin wallet a locked selection, a Solana wallet nothing; it is recorded on the row; a failure leaves rows, outpoints and every counter alone |
| `WithdrawalService.Service.Rollback` | internal/withdrawal/withdrawal.go:371-378 | nonce and outpoints are given back, and with a reason the row is marked failed and its key freed |
| `WithdrawalService.Service.Broadcast` | internal/withdrawal/withdrawal.go:259-305 | only a SIGNED row with bytes is sent; an acceptance is logged once, with exactly the row's bytes, spends its outpoints, commits its nonce and gives BROADCAST; an error hands both back, frees the key and gives FAILED |
| `WithdrawalService.Service.Confirm` | internal/withdrawal/withdrawal.go:309-328 | succeeds exactly on BROADCAST rows, which become CONFIRMED with the hash recorded and their key freed |
| `WithdrawalService.Service.Fail` | internal/withdrawal/withdrawal.go:331-352 | any row of a known wallet becomes FAILED whatever its state; an EVM nonce is handed back and no outpoint is unlocked |
| `WithdrawalService.Service.OnReorg` | internal/withdrawal/withdrawal.go:356-369 | restores outpoints up to the first unknown one; a confirmed row goes back to BROADCAST exactly when all were known |
| `WithdrawalService.ReservationComesBack` | internal/withdrawal/withdrawal.go:371-378 | undoing a reservation restores every outpoint's lock state and every counter's next number |
| `Rlp.RoundTrip` | internal/withdrawal/txbuilder.go:383-418 | an independent decoder returns exactly the encoded list, for every list of byte strings whose lengths fit |
| `Rlp.Injective` | internal/withdrawal/txbuilder.go:383-393 | encodings are equal exactly for equal lists |
| `Rlp.Canonical` | internal/withdrawal/txbuilder.go:383-418 | whatever the decoder accepts re-encodes to the same bytes |
| `Rlp.ItemBytes` | internal/withdrawal/txbuilder.go:395-418 | a string is its own encoding below 0x80, else it follows a prefix from 0x80, or from 0xb8 with its length in minimal form, as Appendix B of the Yellow Paper has it |
| `Rlp.ListBytes` | internal/withdrawal/txbuilder.go:383-418 | a list is its encoded strings behind a prefix from 0xc0, or from 0xf8 with the length in minimal form |
| `Rlp.EvmEncodeList` | internal/withdrawal/txbuilder.go:383-393 | the list loop writes the specified encoding |
| `Rlp.RlpEncodeItem` | internal/withdrawal/txbuilder.go:395-404 | single byte, short and long item forms |
| `Rlp.RlpEncodeLenPrefix` | internal/withdrawal/txbuilder.go:409-418 | short and long prefixes, with no prefix byte above 255 |
| `Rlp.BigUint` | internal/withdrawal/txbuilder.go:420-432 | the shift loop writes the minimal big-endian form, at most eight bytes |
| `Rlp.MinimalValue` | internal/withdrawal/txbuilder.go:420-439 | the minimal form denotes the number |
| `Rlp.ValueMinimal` | internal/withdrawal/txbuilder.go:420-439 | byte strings without a leading zero are the minimal forms of their values |
| `Eip155.BroadcastIsWhatWasSigned` | internal/withdrawal/txbuilder.go:306-356 | decoding the broadcast bytes and putting (chain id, 0, 0) for (v, r, s) re-encodes to the hashed preimage |
| `Eip155.SignatureRecoverable` | internal/withdrawal/txbuilder.go:343-380 | from the broadcast bytes and a known chain id one reads the header less 27 modulo 4, and the halves r and s digit for digit |
| `Eip155.SameVIff` | internal/withdrawal/txbuilder.go:367-378 | two answers of the signer give the same v exactly when their headers are equal or differ by the compressed-key bit |
| `Eip155.FieldOrder` | internal/withdrawal/txbuilder.go:315-358 | decoded, preimage and signed transaction hold nonce, gas price, gas limit, address, amount without sign and data in this order, then chain id and two empty strings, or v, r and s |
| `Eip155.DecodesToSigned` | internal/withdrawal/txbuilder.go:343-356 | the signed encoding decodes to its fields, signature and nonce |
| `Eip155.PreimageInjective` | internal/withdrawal/txbuilder.go:315-328 | preimages are equal exactly when the transaction fields and the chain id are, the amount up to its sign |
| `Eip155.SignedEqualsPreimage` | internal/withdrawal/txbuilder.go:315-356 | a signed encoding is a preimage for a chain if and only if its fields agree, v is that chain id and r and s are zero |
| `Eip155.SignedIsNoPreimage` | internal/withdrawal/txbuilder.go:315-380 | for the chain id that was signed for, no broadcast equals any preimage |
| `TxBuilder.PayloadFromBytes` | internal/withdrawal/txbuilder.go:117-147 | the signer's payload is the hash of what the assembled bytes give back |
| `TxBuilder.AssembledPays` | internal/withdrawal/txbuilder.go:117-147 | the assembled bytes decode to a transfer at the configured gas price with 21000 gas and no data, of the request's amount to the address the request spells |
| `TxBuilder.AssembledNonce` | internal/withdrawal/txbuilder.go:117-147 | a node reads the reserved nonce from the assembled bytes, or zero where none was reserved |
| `EvmAddress.ParsedAddress` | internal/withdrawal/txbuilder.go:441-468 | the result is the 20 bytes the trimmed text spells, and an error means it spells none |
| `EvmAddress.ParseEvmAddress` | internal/withdrawal/txbuilder.go:441-456 | the pair-by-pair loop computes it |
| `EvmAddress.TrimsExactly` | internal/withdrawal/txbuilder.go:441-442 | trimming drops the white space on either side and nothing else |
| `EvmAddress.PrintParse` | internal/deriver/evm.go:123-145 | parsing the checksummed text of any 20 bytes returns them, for every hash function |
| `EvmAddress.ChecksumIsTheValidSpelling` | internal/deriver/evm.go:123-145 | among all spellings of the same digits exactly the output passes the validity test of EIP-55 |
| `EvmAddress.ChecksumIdempotent` | internal/deriver/evm.go:123-145 | a second application changes nothing and letter case of the input does not matter |
| `EvmAddress.ChecksumKeepsDigits` | internal/deriver/evm.go:123-145 | the output has the same hex digits as the input, letter case aside |
| `EvmAddress.Eip55Checksum` | internal/deriver/evm.go:123-145 | the character loop computes the checksummed text |
| `Utxos.SelectionOptimal` | internal/utxo/utxo.go:29-54 | largest-first selection reaches the amount if and only if some subset does, with the fewest inputs of all such subsets, and dropping any input falls short |
| `Utxos.Store.SelectForAmount` | internal/utxo/utxo.go:29-54 | the same for the method; exactly the selected rows become LOCKED, and a failure changes nothing |
| `Utxos.TakeUntil` | internal/utxo/utxo.go:36-49 | the accumulating loop stops at the optimal selection and returns its exact sum |
| `Utxos.SortByValue` | internal/utxo/utxo.go:33-35 | the listing in descending order of value, each outpoint once |
| `Utxos.PrefixIsRichest` | internal/utxo/utxo.go:29-54 | no set of listed outpoints is worth more than the same number of outpoints from the front of the order |
| `Utxos.Store.ListFreeUtxos` | internal/storage/memstore/memstore.go:454-465 | exactly the wallet's FREE outpoints |
| `Utxos.Store.LockUtxos` | internal/storage/memstore/memstore.go:467-486 | all are locked if all exist and are FREE, otherwise none |
| `Utxos.Store.MarkUtxosSpent` | internal/storage/memstore/memstore.go:488-502 | marks up to the first unknown outpoint and succeeds exactly when there is none |
| `Utxos.Store.RestoreUtxos` | internal/storage/memstore/memstore.go:504-519 | frees up to the first unknown outpoint and succeeds exactly when there is none |
| `Nonces.AccountConserved` | internal/nonce/nonce.go:32-69 | over every run of reserve, commit and holder-only rollback the numbers below the counter are the disjoint union of live, committed and burnt ones, and the broadcast mark never overtakes the counter |
| `Nonces.GapFree` | internal/nonce/nonce.go:60-69 | if every rollback is of the most recent reservation, no nonce is burnt |
| `Nonces.Service.ReserveNonce` | internal/nonce/nonce.go:32-53 | hands out the counter's value exactly when one of 50 tries gets the lock before any errs |
| `Nonces.Service.IncrementPendingNonce` | internal/storage/memstore/memstore.go:547-559 | returns the old counter and advances it |
| `Nonces.Service.AdvanceBroadcastNonce` | internal/storage/memstore/memstore.go:561-573 | the broadcast mark only rises |
| `Nonces.Service.RollbackPendingNonce` | internal/storage/memstore/memstore.go:578-591 | steps back only onto the last number handed out and reports whether it did |
| `Nonces.KeyInjective` | internal/storage/memstore/memstore.go:248-250 | counter keys are equal exactly for equal wallet and chain |
| `SagaNonce.CountersApart` | internal/domain/domain.go:14-24 | wallets and chains share a counter exactly when both are the same |
| `ReentrantLock.MutualExclusion` | internal/storage/memstore/memstore.go:87-116 | over every interleaving of any number of goroutines at most one is in a critical section, and it holds the mutex |
| `ReentrantLock.NestedPathHoldsMu` | internal/storage/memstore/memstore.go:87-102 | at the depth test the nested path is taken if and only if the goroutine holds the mutex |
| `ReentrantLock.UnlockedByHolderAtDepthZero` | internal/storage/memstore/memstore.go:107-115 | the mutex is unlocked only by its holder, at depth zero, with no closure left |
| `ReentrantLock.BalancedLeavesNothing` | internal/storage/memstore/memstore.go:93-115 | balanced release leaves no depth entry and no mutex held |
| `ReentrantLock.SnapshotIffOutermost` | internal/storage/memstore/memstore.go:123-137 | an InTx call takes the snapshot if and only if it entered by the outermost path, and it holds the mutex |
| `ReentrantLock.OneSnapshot` | internal/storage/memstore/memstore.go:123-137 | at most one snapshot is open in the whole store |
| `ReentrantLock.NoDeadlock` | internal/storage/memstore/memstore.go:87-116 | while a goroutine is inside the lock code, some goroutine can move or the mutex holder is in its own code |
| `ReentrantLock.DropInOrderIff` | internal/storage/memstore/memstore.go:93-115 | releasing a closure keeps the order if and only if it is nested or the last one; otherwise the mutex is about to be unlocked at positive depth |
| `ReentrantLock.RunInv` | internal/storage/memstore/memstore.go:87-135 | depth counters, closures and both mutexes agree in every reachable state |
| `TxStore.Store.InTx` | internal/storage/memstore/memstore.go:123-143 | for every body over all of the store's operations, with branches on replies and nested transactions: an outermost transaction shows all of the body's effect or, on failure, exactly the twelve tables before it; a nested one just runs its body |
| `TxStore.Store.Run` | internal/storage/memstore/memstore.go:123-143 | a body on the heap does what it does to the tables, whatever it reads on the way |
| `TxStore.Store.Perform` | internal/storage/memstore/memstore.go:252-914 | each of the store's operations does to the rows on the heap, pointers and slices followed, what it does to the tables, and replies the same |
| `TxStore.Store.TakeSnapshot` | internal/storage/memstore/memstore.go:146-211 | the copies of every table are new row objects that show what the live rows show, with the rows' pointers shared |
| `TxStore.Store.Restore` | internal/storage/memstore/memstore.go:214-227 | the store shows in every table what the snapshot kept, pointers shared with the discarded rows included |
| `TxBodies.NestingIsTransparent` | internal/storage/memstore/memstore.go:118-134 | writing nested transactions out in place changes neither effect nor replies nor outcome, for every body |
| `TxBodies.SavepointIffClean` | internal/storage/memstore/memstore.go:118-134 | a body shows, step by step, what it would show if nested transactions had savepoints if and only if every nested body that fails on the way leaves the tables as it found them |
| `TxBodies.CleanIsSaved` | internal/storage/memstore/memstore.go:118-134 | such a body also ends with the same tables, replies and outcome |
| `TxBodies.AddLockedIsStep` | internal/balance/balance.go:203-216 | the transaction of AddLocked on the stored texts is the ledger's step, and fails exactly for an unknown balance, for every exact reader and writer of decimals |
| `TxBodies.ReleaseLockedIsStep` | internal/balance/balance.go:219-235 | the same for ReleaseLocked |
| `TxBodies.DemotionIsStep` | internal/balance/balance.go:147-169 | the same for the demotion of a reorg, where an unknown balance is no error |
| `TxBodies.ConfirmationIsStep` | internal/balance/balance.go:77-143 | recording the event, the crediting transaction and its audit event together are the ledger's step for every decimal amount, and a recorded event changes nothing |
| `StoredBalances.StoredIsHistory` | internal/balance/balance.go:77-235 | over every run of confirmations, reorgs, locks and releases, with any other store operations in between: the stored texts read as the sums over the history of distinct events, and the stored block as the largest height |
| `StoredBalances.StoredIsLedger` | internal/balance/balance.go:77-235 | over such runs the stored texts read as the whole ledger |
| `StoredBalances.Service.ApplyConfirmationEvent` | internal/balance/balance.go:77-119 | on the heap, through InTx, the tables after the call are those of the specification, and it reports no error |
| `StoredBalances.Service.Apply` | internal/balance/balance.go:147-235 | the same for the demotion of a reorg, AddLocked and ReleaseLocked, with the error of the transaction |
| `DecimalText.PlainIsExact` | internal/balance/balance.go:240-253 | plain notation with as few places as needed is exact: every text reads as a decimal and every decimal reads back as itself |
| `DecimalText.DecimalSum` | internal/balance/balance.go:90-119 | sums and differences of decimals are decimals |
| `DecimalText.TextReads` | internal/balance/balance.go:240-253 | the plain text of an integer moved any number of places gives both back |
| `StoreView.RewrittenIs` | internal/storage/memstore/memstore.go:488-519 | marking and restoring outpoints change exactly the rows ahead of the first unknown outpoint and fail exactly when there is one; a failure takes nothing back |
| `StoreView.OneOpenIff` | internal/storage/memstore/memstore.go:806-863 | a wallet keeps at most one open funding request per asset through an operation exactly when it is not an update that reopens one beside another |
| `SagaStore.StoreIsSaga` | internal/storage/memstore/memstore.go:443-729 | over every run of the saga the store, written by one operation at most per table and step, holds the saga's counters, outpoints, withdrawal rows and in-flight keys, with its texts for states, locks and values, and a time stamp on what is locked or spent |
| `SagaStore.LockIsStored` | internal/storage/memstore/memstore.go:467-486 | locking is refused or done by the stored table exactly as by the saga's |
| `SagaStore.RowIsStored` | internal/storage/memstore/memstore.go:669-729 | updates of state, nonce, outpoints and bytes of a stored row are those of the saga's row, kept texts and freed key included |
| `SagaStore.RepliesAgree` | internal/storage/memstore/memstore.go:547-620 | Create is refused by the store exactly when the step is not possible, the reserved nonce is the store's reply, and outpoints are locked exactly when the store says so |
| `SagaStore.StoredReservationsExclusive` | internal/withdrawal/withdrawal.go:356-369 | in the store, with callers that restore only what the tables allow, of the withdrawals with no call under way at most one is SIGNED and lists a given outpoint, and that outpoint is not FREE |
| `StoredOutbox.StoreIsOutbox` | internal/storage/memstore/memstore.go:865-914 | over every run of emitters and drainer the store's events and counters are the outbox and its counters |
| `StoredOutbox.MarkIsStored` | internal/storage/memstore/memstore.go:896-908 | marking a stored event is marking the row, counts an attempt and is refused exactly for an unknown id |
| `TxStore.Store.CreateWithdrawal` | internal/storage/memstore/memstore.go:593-620 | refused for a taken id or key, otherwise a new row and key; outpoints and signed bytes are copied, the nonce pointer is shared |
| `TxStore.Store.UpdateWithdrawalState` | internal/storage/memstore/memstore.go:669-692 | the row is written in place, empty reason, hash and decision leave the stored ones, and a terminal state frees the key |
| `StoreTables.ViewedRows.UpdateWithdrawalNonce` | internal/storage/memstore/memstore.go:694-703 | the pointer is replaced, its old target is not written |
| `StoreTables.ViewedRows.UpdateWithdrawalOutpoints` | internal/storage/memstore/memstore.go:705-716 | the slice is replaced by a copy of the caller's, its old elements are not written |
| `StoreTables.ViewedRows.UpdateWithdrawalSignedTx` | internal/storage/memstore/memstore.go:718-729 | the same for the signed bytes |
| `StoreTables.ViewedRows.IncrementPendingNonce` | internal/storage/memstore/memstore.go:547-559 | the counter row is written in place or stored if there was none, alone, and the old number is returned |
| `StoreTables.ViewedRows.AdvanceBroadcastNonce` | internal/storage/memstore/memstore.go:561-573 | the same for the broadcast mark, which only rises |
| `StoreTables.ViewedRows.RollbackPendingNonce` | internal/storage/memstore/memstore.go:578-591 | the counter steps back only onto the last number handed out, and says whether it did |
| `StoreTables.ViewedRows.CreateWallet` | internal/storage/memstore/memstore.go:252-264 | refused for a known id, otherwise a copy of the row that shares its pointers |
| `StoreTables.ViewedRows.UpdateWalletState` | internal/storage/memstore/memstore.go:276-285 | the row is written in place |
| `StoreTables.ViewedRows.InsertAddress` | internal/storage/memstore/memstore.go:307-326 | refused for a known id, and for an active address when the scan finds the wallet has one |
| `StoreTables.ViewedRows.DeprecateAddress` | internal/storage/memstore/memstore.go:357-365 | the row is written in place; an unknown id is an error |
| `StoreTables.ViewedRows.IncrementReceiveCount` | internal/storage/memstore/memstore.go:390-398 | the same for the count |
| `StoreTables.ViewedRows.UpsertBalance` | internal/storage/memstore/memstore.go:400-407 | a new row object replaces the stored one |
| `StoreTables.ViewedRows.InsertUtxo` | internal/storage/memstore/memstore.go:443-452 | refused for a known outpoint, otherwise a copy that shares its pointers |
| `StoreTables.ViewedRows.LockUtxos` | internal/storage/memstore/memstore.go:467-486 | every row is locked with one shared lock time if all are known and free, otherwise none is touched |
| `StoreTables.ViewedRows.MarkUtxosSpent` | internal/storage/memstore/memstore.go:488-502 | rows are written one by one up to the first unknown outpoint, which is an error with those writes in place |
| `StoreTables.ViewedRows.RestoreUtxos` | internal/storage/memstore/memstore.go:504-519 | the same, with both time pointers cleared |
| `StoreTables.ViewedRows.PruneUtxos` | internal/storage/memstore/memstore.go:521-527 | exactly the named rows go |
| `StoreTables.ViewedRows.CreateFundingRequest` | internal/storage/memstore/memstore.go:806-821 | refused when the scan finds an open request of the wallet for the asset |
| `StoreTables.ViewedRows.UpdateFundingState` | internal/storage/memstore/memstore.go:851-863 | the row is written in place, an empty batch id leaves the stored one |
| `StoreTables.ViewedRows.MarkAuditDelivered` | internal/storage/memstore/memstore.go:896-908 | the first row with the id is marked, with a new time of delivery; none is an error |
| `TxStore.Store.AppendAuditEvent` | internal/storage/memstore/memstore.go:865-878 | refused for a stored event id, otherwise a copy that shares the caller's pointers and payload |
| `TxStore.Store.RecordBalanceEvent` | internal/storage/memstore/memstore.go:433-441 | refused for a recorded key, otherwise recorded |
| `TxStore.Store.NextAuditSeq` | internal/storage/memstore/memstore.go:910-914 | the wallet's counter advances by one and is returned |
| `TxStore.Store.BindKeyMapping` | internal/storage/memstore/memstore.go:731-747 | refused exactly when both the new mapping and a stored one are current, otherwise appended |
| `TxStore.Store.RotateKeyMapping` | internal/storage/memstore/memstore.go:765-791 | current rows are demoted in place and share one new expiry time, the key's first row is promoted or a new one appended; other wallets' rows are untouched |
| `TxStore.Store.ExpireCooling` | internal/storage/memstore/memstore.go:793-804 | exactly the mappings whose cooling is over are retired, in every wallet |
| `TxStore.Store.ResolveActiveKey` | internal/storage/memstore/memstore.go:749-763 | exactly the active mappings, each as often as it is stored, in order of start time; an error exactly when there is none |
| `TxStore.Store.ResolveActiveKeyID` | internal/keymapping/keymapping.go:72-81 | the key of the active mapping with the earliest start |
| `KeyMappings.OneCurrent` | internal/keymapping/keymapping.go:31-56 | over every run with a moving clock never two current mappings, and after a rotation exactly one, for the new key and younger than all others |
| `KeyMappings.ResolvesIff` | internal/storage/memstore/memstore.go:749-804 | a key resolves if and only if the first rotation after its last promotion has not been followed by an expiry later than rotation time plus cooling period |
| `KeyMappings.CurrentIsLast` | internal/storage/memstore/memstore.go:749-763 | the current mapping is last in resolution order |
| `KeyMappings.FirstIsCurrentIff` | internal/keymapping/keymapping.go:72-81 | the key id handed to signing is the current one if and only if no mapping is cooling |
| `KeyMappings.RunOrderly` | internal/storage/memstore/memstore.go:731-804 | keys and start times are distinct, a non-empty list has a current mapping and it is the youngest |
| `KeyMappings.StandingExplained` | internal/storage/memstore/memstore.go:765-804 | a key's standing is decided by the positions of the events that promoted, demoted and expired it |
| `AuditOutbox.DeliveredInOrder` | internal/audit/audit.go:161-239 | over every run with sink failures, partial marking and emission during a drain, a wallet's first deliveries ascend and are a prefix of what was emitted |
| `AuditOutbox.MarkedWereDelivered` | internal/audit/audit.go:220-239 | marked events were delivered, and a wallet's earlier events are marked too |
| `AuditOutbox.FirstsAreOneToK` | internal/audit/audit.go:161-239 | with new event ids a wallet's first deliveries are exactly 1, 2, ..., k |
| `AuditOutbox.NumbersAreContiguous` | internal/storage/memstore/memstore.go:865-914 | with new event ids a wallet's stored numbers have no gap |
| `AuditOverlap.TurnsAreNeeded` | internal/audit/audit.go:161-189 | after any run in which emitters took turns, with an idle drainer: numbering another event of a wallet can lead to deliveries out of order if and only if one of that wallet is numbered and not stored |
| `AuditOverlap.DisorderIff` | internal/audit/audit.go:161-189 | the same from every state that meets the invariant |
| `AuditOverlap.DrainAll` | internal/audit/audit.go:220-239 | drains in batches of 100 empty any outbox when the sink answers: every stored event is delivered and marked |
| `AuditOutbox.RunInv` | internal/storage/memstore/memstore.go:865-914 | the invariant behind these results holds in every reachable state, the global sort and the limit of 100 notwithstanding |
| `AuditEmitter.Emitter.Emit` | internal/audit/audit.go:161-189 | the stored row carries the wallet's next number and the counter stands at it, also when a taken event id is refused; an event without a wallet leaves the counters alone; the state stays reachable |
| `AuditEmitter.Emitter.Drain` | internal/audit/audit.go:220-239 | the sink gets the sorted batch up to its failure; rows are marked only if it took all of it, up to a failure of the marking; whatever fails, deliveries stay in order |
| `AuditEmitter.Emitter.ListUndelivered` | internal/storage/memstore/memstore.go:880-894 | undelivered rows only, each once, in ascending order, at most the limit; whatever is left out is not smaller, and nothing is left out below the limit |
| `AuditEmitter.Emitter.AppendAuditEvent` | internal/storage/memstore/memstore.go:865-878 | refuses a stored event id, otherwise appends |
| `AuditEmitter.Emitter.MarkAuditDelivered` | internal/storage/memstore/memstore.go:896-908 | marks the first row with the id and counts the attempt |
| `Rotation.NeverTwoActive` | internal/wallet/rotation.go:36-129 | no interleaving of CurrentOrRotate and ForceRotate reaches a state with two active addresses of a wallet |
| `Rotation.FirstDerivation` | internal/wallet/rotation.go:186-219 | with any number of racing CurrentOrRotate callers and no rotation due, a wallet gets at most one address and every successful caller returns it, active |
| `Rotation.InsertNeverRefused` | internal/wallet/rotation.go:202-217 | in such runs the caller that derives never meets the second-active-address error |
| `Rotation.NewAddressIffOwed` | internal/wallet/rotation.go:36-129 | over every interleaving a call returns an address inserted after its first look if and only if one was owed (forced, due, or none active); the address it set out to replace is deprecated for good |
| `Rotation.OneHolder` | internal/wallet/rotation.go:101-111 | two callers between lock and unlock work on different wallets |
| `Rotation.MemLocker.Acquire` | internal/lock/lock.go:64-73 | succeeds exactly on a free name |
| `Rotation.MemLocker.Release` | internal/lock/lock.go:75-82 | only the holder's token frees the name |
| `Derivers.CacheIsTransparent` | internal/deriver/btc.go:51-72 | after any run of queries by any Bitcoin and EVM derivers sharing a cache, with expiry, deletion and cache failures, a query returns what it returns uncached |
| `Derivers.CacheKeyInjective` | internal/deriver/evm.go:54-56 | accepted queries share a cache key if and only if they ask for the same child of the same account key |
| `Derivers.Deriver.DeriveAt` | internal/deriver/btc.go:51-81 | an accepted query with an index below 2^31 answers with the address that key derivation gives for this account key, change chain and index, or fails as it does, and its path starts as documented and parses back to change chain and index; every other query fails; the cache changes nothing but itself |
| `Derivers.EntryRenewedIff` | internal/deriver/btc.go:61-70 | during a successful query an entry that has not expired is used and stays, and any other is not used and is written anew with the current time |
| `Derivers.MemCache.Get` | internal/cache/cache.go:80-89 | a value is returned exactly when it is stored and has not expired; otherwise its entry is dropped |
| `Derivers.MemCache.Set` | internal/cache/cache.go:91-96 | a value with a non-negative lifetime is found right away |
| `Derivers.MemCache.Del` | internal/cache/cache.go:98-105 | exactly the named entries go |
| `Derivers.PathRoundTrip` | internal/deriver/deriver.go:97-111 | the path of every accepted query, Bitcoin or EVM, starts as documented and parses back to its change chain and index |
| `Derivers.ParsesIff` | internal/deriver/deriver.go:97-111 | a path parses to change and index if and only if it is, between white space, m, three pieces of any kind and texts of the two numbers, with slashes between |
| `Derivers.Bip84Iff` | internal/deriver/deriver.go:95-111 | a path has the documented form if and only if it parses and starts with the fixed part |
| `Derivers.MiddleIsIgnored` | internal/deriver/deriver.go:97-111 | any three pieces in the place of purpose, coin and account are accepted |
| `Derivers.SplitJoin` | internal/deriver/deriver.go:98 | splitting what was joined at the separator gives the pieces back |
| `Decimals.FormatParse` | internal/deriver/deriver.go:102-109 | formatting a 64-bit number and parsing it returns it |
| `Balances.LedgerIsHistory` | internal/balance/balance.go:77-195 | over every run, for every wallet and asset: confirmed plus pending is the sum over distinct event keys, confirmed is the threshold-passing part since the last reorg, the last block is the maximum height |
| `Balances.LockedIsHistory` | internal/balance/balance.go:202-235 | over every run the locked portion is the largest of the net of all lock changes the balance took and the nets of those after each release |
| `Balances.ReplayChangesNothing` | internal/balance/balance.go:77-88 | an event whose key came up before changes nothing, now or after any further operations |
| `Balances.OrderDoesNotMatter` | internal/balance/balance.go:90-119 | confirmations with distinct keys give the same balances in every order |
| `Balances.MaxHeightIsMax` | internal/balance/balance.go:115-116 | the maximum is an upper bound that is attained or zero |
| `Balances.EventKeyInjective` | internal/storage/memstore/memstore.go:433-441 | for assets without the separator the key tells wallet, asset, height and event id |
| `Balances.EventKeyUniqueIff` | internal/storage/memstore/memstore.go:433-441 | an event's key is shared with no other event if and only if neither its asset nor its event id hides a number next to a separator |
| `Balances.BalanceKeyInjective` | internal/storage/memstore/memstore.go:244-246 | balance keys are equal exactly for equal wallet and asset |
| `Balances.Service.ApplyConfirmationEvent` | internal/balance/balance.go:60-143 | a new event adds to confirmed if it is finalized on Solana or has the confirmations configured for Bitcoin or for EVM chains, and else to pending, and leaves the other part; a known one changes nothing; a decrease is reported exactly when confirmed fell |
| `Balances.Service.ApplyReorgEvent` | internal/balance/balance.go:147-188 | the confirmed part moves to pending, an unknown balance is left alone; outpoints are restored up to the first unknown one, which is the only error |
| `Balances.Service.AddLocked` | internal/balance/balance.go:203-216 | the locked portion grows by the amount; fails exactly for an unknown balance |
| `Balances.Service.ReleaseLocked` | internal/balance/balance.go:219-235 | the locked portion falls by the amount, or to zero where that would go below |

## Left out

- Store writes that fail in the middle of the saga: the source ignores several of these results; the model has them succeed.
- Two calls at once on one withdrawal id: at most one call per id is under way, calls on different ids interleave.
- A gateway error means the transaction was not accepted; a lost reply to an accepted broadcast is not modelled.
- Nonce counters stay below 2^63; the wrap-around of 64-bit counters is not modelled.
- Pruning of spent outpoints: not part of the saga's runs.
- Bitcoin sighash and witness serialisation and the Solana message: parameters of the builder.
- TxStore: the typed row maps are one map keyed by table and key; the lists of key mappings and audit events are rows with a position; slice headers and the time stamps of creation and update are left out; the list operations and `NextAddressIndex`, which only read, are left out beside the looks at single rows.
- TxBodies: the decimal library is any reader and writer under which every text reads as a decimal, an empty text as zero, and a written decimal as itself; plain notation is one (`DecimalText.PlainIsExact`), exponent notation is not modelled.
- SagaReorg.ReorgDoubleSpendsIff: for locked outpoints it needs their wallet at rest, because table and rows alone do not tell what a call under way holds.
- SagaReorg: a double spend needs a builder and a signer that answer for Bitcoin wallets; what an unanswering one prevents is not counted.
- SagaNonce.NextReservationClashesIff: for rows that are neither SIGNED nor accepted it needs a wallet at rest and accepted transactions with hashes, because rows and counter alone do not tell what a call under way holds.
- WithdrawalService: a single thread of calls; interleaving is the subject of `Saga`, whose steps the methods take.
- Rotation: the age and receive-count test is the parameter `due`; derivation indexes and the audit events are left out.
- SagaStore: scripts and confirmation counts of outpoints are stored but not compared with the saga, which has none.
- AuditOutbox: an emitter without a sink, which marks without delivering, and concurrent drainers.
- Derivers: Solana derivation and the Redis cache.
- KeyMappings: the time stamp of creation, and the start time a mapping gets when it comes without one.
- Redis lock expiry, Postgres, migrations, REST, gRPC, Kafka, tracing, configuration and token checks: plumbing.
- Funding thresholds: floating-point comparisons with little structure.
