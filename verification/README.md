# Kanari: verified models of execution, chain, network and storage

This project models the core of the Kanari node in Dafny and proves what it promises.
Every `.dfy` file is part of one project: `dafny verify dfyconfig.toml` checks all of it.

| file | models |
|---|---|
| `ChangeSets.dfy` | changesets, the access manifest, conflicts, gas settlement, merging of two |
| `Ledger.dfy` | applying changesets one by one: object writes, gas taken from coins, owners' books, supply, cells |
| `Merging.dfy` | changesets merged part by part, against the same changesets one by one |
| `Applied.dfy` | what one application leaves: declared keys, who pays, every object and cell; what a merged changeset reports |
| `Footprints.dfy` | what a manifest promises about an application |
| `Gas.dfy` | what a transaction pays on every path |
| `Execution.dfy` | one execution: checks, balance guard, body, gas; and when it comes out the same in another state |
| `Executor.dfy` | serial execution, the waves, the apply batches and the two conflict checks |
| `Batches.dfy` | a whole dependency-aware schedule against one-by-one application |
| `Waves.dfy` | a committed wave against serial execution |
| `Replay.dfy` | what serial execution leaves behind, as a path of states |
| `Speculation.dfy` | the wave executor and the conflict-free executor, over whole calls |
| `NativeCoin.dfy` | native transfers and burns on the stored coins |
| `Debits.dfy` | the debit check: what an owner can be debited, one changeset and whole runs |
| `NativeCalls.dfy` | native calls as executions of the engine, what they declare and what they debit |
| `Divergence.dfy` | split transfers at which merging and speculation are seen |
| `TurnedAway.dfy` | one such wave in full, with numbers |
| `BurnBatch.dfy` | the batched path for burns |
| `Selection.dfy` | choosing the transactions of a DAG vertex and of the owned fast path |
| `OneBatch.dfy` | the batch of a vertex is the only canonical one |
| `Overtaking.dfy` | transactions of one sender and lane: which nonce goes first |
| `Chain.dfy` | the retained checkpoint window, the hash queue, the location index and the counter |
| `P2P.dfy`, `Reassembly.dfy` | compressing, chunking and reassembling P2P messages |
| `Backup.dfy` | the streaming validator backup: writer, restoring parser, envelope |
| `Authenticity.dfy` | which backup files are taken, whoever wrote them |
| `Promotion.dfy` | the import of a backup to disk |
| `History.dfy` | persisted history, pruning, the hash index and the nonce watermark |
| `Sessions.dfy` | the session manager's two-way index |
| `TypeTags.dfy` | the type-tag parser |
| `Prelude.dfy` | result shapes, lists of lists, sums over maps |

The Move VM, the state manager's supply figures, hashing, JSON, bincode, gzip, encryption and
UTF-8 are functions passed in as values. Where a theorem needs more than their existence, the
hypothesis is a named predicate: a decoder that inverts its encoder and a 32-byte hash
(`P2P.Inverse`, `Backup.Faithful`, `TypeTags.Faithful`), gas settled by every execution
(`Executor.Metered`, proved of the engine's execution by `Execution.MachineIsMetered`), an
unchanged epoch that means an unchanged state (`Executor.Honest`), and, for waves of two and
more, a runtime that applies by the ledger and whose checks and bodies look only at what
their manifest declares (`Waves.Modelled`, met by the engine's native calls with any books:
`NativeCalls.NativeIsModelled`). How an owner's recorded balance follows from its
delta, its gas credit and its coins is an arbitrary function of that owner's own figures
(`Ledger.Books`). Clocks, random session ids, temporary names and environment switches are
parameters. Each lock section is one atomic step.

## What is worth knowing

- **The gas fence.** Every executed changeset ends by crediting gas to the DAO account, and
  that credit puts the DAO's owner key in the write set, unless the DAO itself pays and ends
  with a net debit. So among transactions that the DAO does not send only waves of one commit,
  and parallel execution is serial execution, for any VM and any state manager.
- **Waves with DAO payments.** A wave of two or more commits only with payments of the DAO
  account in it. It is then serial execution if and only if three things hold, all decided by
  the snapshot and the changesets: at its turn, every transaction's maximum-gas guard still
  passes or meets the same balance; merging its batches is not seen; and the cached supply is
  valid at every turn. `Divergence.CollectorIsTurnedAway` is a family of split transfers where
  the guard fails, and `TurnedAway.AWaveThatDeviates` one wave in full: an account of 1005, two
  transfers of 10 that must each be able to pay 1000. Executions read the sender's balance
  (crates/kanari-core/src/engine.rs:2995-2997), which no manifest declares, and a payer's net
  debit is left out of the write set.
- **Merging is seen in three places.** A gas coin pays the smaller of its owner's debit and of
  all gas credits of the changeset, and merging adds the credits up: two conflict-free
  transfers pay their own gas alone and the gas of both when merged
  (`Divergence.CreditsAddUp`), and of two coins of one payer only the first pays. An owner's
  books are posted once instead of twice; only owners that two changesets move can come out
  differently. The supply is checked at the end of a batch only.
- **Netting hides no overdraft of a native call.** A call that goes through declares coins that
  cover its amount and its gas, and in a conflict-free wave nobody touches them before its
  turn. One by one, such calls fail only for a gas coin or for the supply
  (`NativeCalls.NoOverdraftInTurn`).
- **The two executors count differently.** Serial execution counts a changeset that reports
  failure as executed, the conflict-free executor as failed.
- **The hot-object cap never bites**: transactions of one lane share a conflict key, so the
  greedy pick already holds at most one of them.
- **A higher nonce can go first.** Of two transactions of one sender in one lane, the batch of a
  vertex holds the higher nonce without the lower one in some pool exactly when the higher one
  fits a vertex, can do without a key of the lower one, and some lane comes before theirs: the
  transaction in that lane takes the key. `Overtaking.SecondNonceFirst` is such a pool: two calls
  on one object, with gas coins g and h, and a third transaction that pays with g. If the higher
  one needs every key of the lower one, it always waits.
- **An overcounted supply is left only through a treasury.** While the cached supply exceeds the
  total, a transaction that moves no treasury ends the run and stores nothing, its failure charge
  included.
- **A batch can be empty while the pool is not**: exactly when the first transaction in
  canonical order does not fit a vertex alone.
- **A compressible payload over 32 MiB** is published without error and dropped on arrival.
- **The backup writer accepts more than the reader**: unknown names, more than 100,000
  records, entries over 8 GiB, a manifest over 1 MiB. What a validator itself exports is
  within the reader's rules, apart from sizes and counts.
- **A tampered backup is refused as a whole**, for any hash, cipher and compression: another
  digest than the header's, a record behind another hash than that of its data, or a count other
  than the manifest's, and no file is left on disk.
- **Restoring into nested directories.** An import succeeds only if neither target lies in the
  other. With recovery inside data it fails before anything is promoted; with data inside
  recovery, or both the same, it fails after the data is in place. In no case is anything lost
  that was on disk.
- **Nonces of 2^53 and above** are forgotten by the watermark at the next write. Admission
  rejects them (crates/kanari-core/src/engine.rs:2845-2852), so one can only arrive through a
  checkpoint or an older store.
- **The batched burn** declines a burn unless the coin, after the burn, still covers the whole
  debit again: for gas paid to another account, from twice the amount plus gas on. What it
  takes, it stores short of the ordinary path by the burned amount.

## Model

| member | source | states |
|---|---|---|
| `ChangeSets.ConflictSymmetric` | move-execution/v1/kanari-move-runtime-v1/src/changeset.rs:80-85 | conflict between access sets is symmetric, so the order in which a wave is checked does not matter |
| `ChangeSets.AccumulatedConflict` | crates/kanari-core/src/engine.rs:1992-2018 | testing against the accumulated access set is testing against each member, for every list |
| `ChangeSets.OwnerKeyWritten` | move-execution/v1/kanari-move-runtime-v1/src/changeset.rs:174-307 | an owner key is written exactly when the owner has a delta that is not a pure debit of the gas payer |
| `ChangeSets.GasFence` | crates/kanari-core/src/engine.rs:2783-2828 | settling gas writes the collector's owner key, exactly except when the collector pays and ends with a net debit |
| `Applied.DeclaredIff` | move-execution/v1/kanari-move-runtime-v1/src/changeset.rs:174-307 | for every kind of key, which changesets declare it written and which declare it read |
| `Applied.ConflictIff` | move-execution/v1/kanari-move-runtime-v1/src/changeset.rs:80-85 | two changesets conflict if and only if one of them writes a key that the other writes or reads |
| `Applied.DynamicWriterConflicts` | move-execution/v1/kanari-move-runtime-v1/src/changeset.rs:174-181 | a writer of dynamic fields conflicts with every changeset, whatever that one does |
| `Ledger.GasTotal` | crates/kanari-core/src/engine.rs:2783-2828 | settling gas moves it from sender to collector and creates or destroys none |
| `Ledger.PaysOnce` | move-execution/v1/kanari-move-runtime-v1/src/state/apply.rs:918-948 | no owner is charged for gas twice by one changeset, however many of its coins are visited |
| `Applied.PaysWhatIsDue` | move-execution/v1/kanari-move-runtime-v1/src/state/apply.rs:918-948 | over all visits, an owner one of whose coins is visited pays exactly what is due, any other nothing |
| `Applied.FirstCoinPays` | move-execution/v1/kanari-move-runtime-v1/src/state/apply.rs:918-948 | the coin that pays is the first one visited for its owner |
| `Applied.ObjectAfter` | move-execution/v1/kanari-move-runtime-v1/src/state/apply.rs:860-1143 | every object after an application: deleted, rewritten with the next version and less the gas taken from it, only charged with another version exactly if it paid, or untouched |
| `Applied.CellAfter` | move-execution/v1/kanari-move-runtime-v1/src/state/apply.rs:728-1262 | every cell after an application: what the changeset has for it, removed if that says so, else as before |
| `Applied.SupplyAndModulesAfter` | move-execution/v1/kanari-move-runtime-v1/src/state/apply.rs:470-760 | the supply moves by the sum of the deltas, an owner gains exactly the modules of its own delta, and the epoch stays exactly when nothing is written |
| `Ledger.BookOfEffect` | move-execution/v1/kanari-move-runtime-v1/src/state/apply.rs:595-760 | an accepted changeset posts exactly its step to every owner: recorded balance and objects held afterwards are the posted book |
| `Ledger.EachIff` | move-execution/v1/kanari-move-runtime-v1/src/state/apply.rs:446-1290 | changesets that touch different objects succeed one by one if and only if every gas coin covers its charge, every prefix keeps the supply in 64 bits and every owner's books accept its steps in turn; what they leave is read off the state before |
| `Merging.TotalAdd` | move-execution/v1/kanari-move-runtime-v1/src/changeset.rs:513-530 | merging adds up the minted and burned totals of two changesets, whatever owners they share |
| `Applied.MergedSuccess` | move-execution/v1/kanari-move-runtime-v1/src/changeset.rs:500-505 | a merged list succeeds if and only if every member does, and else carries the message of the last failure |
| `Applied.MergedGas` | move-execution/v1/kanari-move-runtime-v1/src/changeset.rs:500-505 | a merged list reports the gas of all its members, up to the 64-bit bound |
| `Applied.MergedReads` | move-execution/v1/kanari-move-runtime-v1/src/changeset.rs:475-500 | a merged list reads exactly what some member reads |
| `Merging.MergedIsEachIff` | crates/kanari-core/src/engine.rs:2029-2062 | for any books, merging part by part gives the outcome of one by one, failure included, if and only if, once either succeeds, every gas coin pays the same, every owner's books come out the same and every prefix keeps the supply in range |
| `Merging.OnePayerTwice` | move-execution/v1/kanari-move-runtime-v1/src/state/apply.rs:1054-1143 | two changesets that charge coins of one owner never merge unseen: merged, only one of the coins pays |
| `Merging.OnlySharedOwnersMatter` | move-execution/v1/kanari-move-runtime-v1/src/state/apply.rs:1150-1213 | where gas agrees, merging can show only in the books of an owner that two changesets move |
| `Divergence.PairPaysAlikeIff` | move-execution/v1/kanari-move-runtime-v1/src/state/apply.rs:502-549 | two changesets with one gas coin each pay merged what they pay alone if and only if both payers owe the same on the merged deltas and the sum of all credits |
| `Divergence.SplitIsPay` | crates/kanari-core/src/engine.rs:734-887 | an executed split transfer moves the amount from sender to recipient and the gas from sender to collector, and no other balance |
| `Divergence.SplitRewrites` | crates/kanari-core/src/engine.rs:734-887 | it rewrites its input coin to the rest and the new output to the amount, and only names its gas coin |
| `Divergence.PaymentsMergeIff` | move-execution/v1/kanari-move-runtime-v1/src/state/apply.rs:502-549 | for two split transfers of different payers, what each gas coin pays alone and merged, and the exact condition on amounts and gas costs under which it is the same |
| `Divergence.PaymentsAreConflictFree` | move-execution/v1/kanari-move-runtime-v1/src/changeset.rs:174-307 | a split transfer and one of the collector never conflict when their objects and recipients differ, although both move the collector's balance |
| `Divergence.CreditsAddUp` | move-execution/v1/kanari-move-runtime-v1/src/state/apply.rs:502-549 | for every executed transfer of at least the collector's gas and collector's transfer of at least its gas and twice the other's: conflict-free, each gas coin pays its own gas alone and both merged |
| `Footprints.UndeclaredIsUntouched` | move-execution/v1/kanari-move-runtime-v1/src/changeset.rs:174-283 | applying a changeset, gas included, leaves every object and cell outside its write set as it was |
| `Footprints.DeclaredKeysStay` | crates/kanari-core/src/engine.rs:2475-2502 | in a conflict-free list, each changeset finds every key it declares, read or written, as it was at the start |
| `Footprints.AnnouncedOwner` | move-execution/v1/kanari-move-runtime-v1/src/changeset.rs:285-307 | an owner's record and objects change only if its key is declared, it pays with a net debit, it collects gas, or an object of its own is declared |
| `Gas.ChargeIsWithinMeans` | crates/kanari-core/src/engine.rs:2697-2765 | on every path, success or failure, the charge is at most the balance and at most limit times price |
| `Gas.NativeChargeIsExact` | crates/kanari-core/src/engine.rs:2980-3012 | an executed native call pays units times price: the saturating product never saturates |
| `Gas.VmChargeIsExact` | crates/kanari-core/src/engine.rs:3206-3217 | a budgeted VM run pays for the units used, at least for the base units, and is refused exactly beyond the limit; no product overflows |
| `Gas.ShortfallChargeIsExact` | crates/kanari-core/src/engine.rs:2992-3012 | a sender who cannot pay limit times price pays the base charge or the whole balance, whatever the call is |
| `Gas.ExecutionIsRefusedIff` | crates/kanari-core/src/engine.rs:2980-3217 | no changeset is returned exactly for base units beyond the limit, an overflowing maximum, refused inputs, an early error or a run beyond the limit |
| `Gas.FailureChargeIsExact` | crates/kanari-core/src/engine.rs:2697-2765 | a failure pays the base units up to the limit, or the whole balance; it is free exactly for a version race, an empty balance, a zero price or a zero limit |
| `Execution.ShortfallTells` | crates/kanari-core/src/engine.rs:2998-3001 | the refusal message determines the balance it was given |
| `Execution.MachineIsMetered` | crates/kanari-core/src/engine.rs:2942-3221 | whatever checks and body do, an executed changeset has settled its gas with the collector |
| `Execution.RecomputedIff` | crates/kanari-core/src/engine.rs:2994-3012 | where all declared keys read the same, a transaction executes to the same changeset if and only if its guard passes with both balances or both balances are equal |
| `Debits.CoveredIsAdmitted` | move-execution/v1/kanari-move-runtime-v1/src/state/apply.rs:603-621 | with room for the sums, a changeset whose debits are within the larger of recorded balance and coins is rejected only by a gas coin or by the supply |
| `Debits.UncoveredIsRejected` | move-execution/v1/kanari-move-runtime-v1/src/state/apply.rs:603-621 | a debit above the larger of recorded balance and coins rejects a changeset |
| `Debits.CoveredRunIff` | move-execution/v1/kanari-move-runtime-v1/src/state/apply.rs:446-1290 | a run whose debits are covered in turn succeeds if and only if every gas coin covers its charge and every prefix keeps the supply in range |
| `NativeCalls.NativeDeclares` | crates/kanari-core/src/engine.rs:3103-3160 | checks and body of a native call come out the same wherever the objects in its manifest are the same |
| `NativeCalls.NativeIsModelled` | crates/kanari-core/src/engine.rs:2942-3221 | with any books, a runtime of native calls meets everything the theorems on waves ask for |
| `NativeCalls.NativeDebits` | crates/kanari-core/src/engine.rs:3103-3160 | an executed native call debits nobody but its sender: the amount if it went through, and the gas unless the sender collects it |
| `NativeCalls.NativeIsCovered` | crates/kanari-core/src/engine.rs:2994-3160 | split, whole, burned, failed or refused: the debit is within the larger of recorded balance and coins |
| `NativeCalls.NativeDebitStands` | move-execution/v1/kanari-move-runtime-v1/src/state/apply.rs:603-621 | at its turn in any conflict-free wave the debit of a call that went through, or of a collector's call, is still covered, as is a failed call's whose sender the others left alone |
| `NativeCalls.NoOverdraftInTurn` | move-execution/v1/kanari-move-runtime-v1/src/state/apply.rs:603-621 | one by one, a conflict-free wave of such calls succeeds if and only if gas coins cover their charges and the supply stays in range: merging hides no overdraft |
| `Batches.ScheduleApplyEachIff` | crates/kanari-core/src/engine.rs:1997-2091 | a whole schedule of conflict-free changesets, either setting, gives the outcome of one by one if and only if, once either succeeds, merging its batches is not seen |
| `Executor.FullValidationImpliesCached` | move-execution/v1/kanari-move-runtime-v1/src/state/supply.rs:735-832 | a candidate that passes full supply validation passes the cached validation of the serial path |
| `Executor.ValidationsCompare` | move-execution/v1/kanari-move-runtime-v1/src/state/supply.rs:735-832 | the full validation is the cached one, plus agreeing indexes that hold at least the cached amount and fit the total with what is locked |
| `Executor.SerialKeepsSupply` | crates/kanari-core/src/engine.rs:2325-2398 | serial execution never leaves an invalid cached supply, also when it aborts midway |
| `Executor.SerialReportsEach` | crates/kanari-core/src/engine.rs:2325-2398 | a finished serial run reports one effect per transaction, in order, and counts each exactly once |
| `Replay.SerialStoresEach` | crates/kanari-core/src/engine.rs:2325-2398 | an outcome is that of serial execution if and only if there is a path of states, each left by storing one effect in the one before: the changeset of the execution there, or else its failure charge; finished runs report these effects and count the executed ones, aborted ones stop where nothing of the transaction is stored, for a stated reason |
| `Replay.ValidatedIff` | move-execution/v1/kanari-move-runtime-v1/src/state/apply.rs:234-247 | a changeset is stored if and only if it applies, the repaired state has a valid cached supply, and it moves a treasury if the supply was overcounted |
| `Replay.OvercountEndsTheRun` | move-execution/v1/kanari-move-runtime-v1/src/state/apply.rs:234-247 | from an overcounted supply, a first transaction that moves no treasury, failed or not, ends the run and leaves the state |
| `Executor.QuietWavesAreSerial` | crates/kanari-core/src/engine.rs:2289-2324 | without other writers, cutting a run into waves changes nothing |
| `Executor.ScheduleWaves` | move-execution/v1/kanari-move-runtime-v1/src/scheduler.rs:23-54 | waves concatenate to the input in order, are non-empty, at most 64 long, with pairwise disjoint conflict keys; and none is cut short: each is full or holds a key of the transaction that starts the next |
| `Executor.CutBatches` | crates/kanari-core/src/engine.rs:1997-2027 | batches list 0..n in order, are non-empty, within the cap, conflict-free inside, and each cut was forced by the cap or a dependency |
| `Executor.ScheduleApplyBatches` | crates/kanari-core/src/engine.rs:1997-2027 | the same for any changesets with the scheduler on; with it off, one batch of everything |
| `Executor.SingleSchedule` | crates/kanari-core/src/engine.rs:1997-2027 | a single changeset is applied on its own whatever the setting |
| `Executor.ApplyDependencyAware` | crates/kanari-core/src/engine.rs:2064-2091 | the loop applies the schedule batch by batch and stops at the first rejection |
| `Executor.AnyIntraWaveConflict` | crates/kanari-core/src/engine.rs:2475-2502 | the wave check reports a conflict exactly when some pair of executed access sets conflicts |
| `Executor.AnyReservedConflict` | crates/kanari-core/src/engine.rs:2160-2184 | the one-pass reserved-key check accepts exactly the lists in which no pair conflicts |
| `Waves.FencedWaveIsSingle` | crates/kanari-core/src/engine.rs:2427-2502 | for any VM, a wave that passes the conflict check and is not paid by the collector has at most one transaction |
| `Waves.SingleWaveIsSerial` | crates/kanari-core/src/engine.rs:2503-2561 | for any VM and any apply routine, a committed wave of one transaction is the serial step, state and tally |
| `Waves.ExecutesAgainIff` | crates/kanari-core/src/engine.rs:2475-2502 | at its turn in serial order, a transaction of a conflict-free wave executes to its speculated changeset if and only if its guard holds there |
| `Waves.SerialIff` | crates/kanari-core/src/engine.rs:2325-2398 | serial execution reports exactly these changesets, all executed, if and only if each is what its transaction executes to at its turn and is applied with a valid supply; the state then is their effect |
| `Waves.CommittedWaveIff` | crates/kanari-core/src/engine.rs:2403-2561 | a committed wave of any length, whoever sends, leaves contents and tally of serial execution if and only if every guard holds at its turn, merging is not seen and the supply is valid at every turn |
| `Divergence.CollectorIsTurnedAway` | crates/kanari-core/src/engine.rs:2994-3012 | for every two executed transfers of the collector within its balance whose first leaves less than the second's maximum gas: conflict-free, accepted merged, the second's guard fails at its turn |
| `Divergence.CollectorWaveDeviates` | crates/kanari-core/src/engine.rs:2403-2561 | a wave that commits such a pair does not leave what serial execution leaves |
| `TurnedAway.AWaveThatDeviates` | crates/kanari-core/src/engine.rs:2403-2561 | with concrete numbers, every hypothesis holds, the wave commits both transfers, and serial execution ends differently |
| `Speculation.ChecksAgree` | crates/kanari-core/src/engine.rs:2127-2184 | the pairwise check of the waves and the reserved-key check accept exactly the same lists of executed changesets |
| `Speculation.Engine.ReplaySerially` | crates/kanari-core/src/engine.rs:2594-2654 | the replay stores, for every transaction in order, its changeset or its failure charge, up to the end or to the first refusal, and reports exactly what it stored; that is serial execution from the live state |
| `Speculation.Engine.SpeculateWave` | crates/kanari-core/src/engine.rs:2403-2561 | it commits exactly what was executed on the snapshot, by one assignment and only if the epoch is the snapshot's; otherwise the state is what other writers left, and one of the stated reasons holds |
| `Speculation.Engine.RunWave` | crates/kanari-core/src/engine.rs:2403-2655 | the record tells how the wave ran: swapped in as executed, or given up for a reason and replayed, storing each effect; a replayed wave, a wave of one, or one without a collector-sent transaction is exactly serial; any other is serial, contents and tally, if and only if its commit serializes |
| `Speculation.Engine.RunWaves` | crates/kanari-core/src/engine.rs:2425-2690 | the log is a run over the waves, each from what the one before left, to the end or the first error, and ends where the call ends; the comparison with serial execution holds of its whole prefix |
| `Speculation.Engine.ExecuteWaves` | crates/kanari-core/src/engine.rs:2289-2690 | serial exactly when asked for, when a module is published or for an empty call, and then every effect is stored in turn; else full waves hold the transactions in order and the log is a run over them. Without collector-sent transactions: state, tally and error of serial execution for every pattern of errors, conflicts, foreign writes and rejections; with them: serial as long as no wave of that run is harmful, and the first harmful wave ends differently |
| `Speculation.FirstHarmfulIs` | crates/kanari-core/src/engine.rs:2425-2690 | that wave is the first whose commit does not serialize |
| `Speculation.Engine.TryConflictFree` | crates/kanari-core/src/engine.rs:2118-2253 | the fast attempt commits all changesets as executed against an unchanged epoch, by the path that trust decides, or leaves the state alone for one of the stated reasons |
| `Speculation.Engine.ExecuteConflictFree` | crates/kanari-core/src/engine.rs:2103-2287 | a trusted result was executed, trusted and applied by the trusted routine; off it, the call was committed as a whole, which is serial if and only if it serializes, or fell back to a run of waves; nothing for an empty call; executed + failed = effects = transactions |
| `Speculation.CountersAgreeIff` | crates/kanari-core/src/engine.rs:2254-2287 | the executed counter equals the serial one if and only if every committed changeset reports success |
| `Speculation.ReportedIs` | crates/kanari-core/src/engine.rs:2254-2287 | a call committed as a whole counts as executed exactly the changesets that report success and the rest as failed, with one effect per transaction in order |
| `Selection.SameLaneClashes` | crates/kanari-types/src/transaction.rs:432-585 | transactions with the same primary access key always share a conflict key |
| `Selection.ClashIff` | crates/kanari-types/src/transaction.rs:432-557 | two transactions clash if and only if both name an object, as input or gas coin, neither names any and their senders are the same, or an extra key is shared |
| `Selection.LaneNames` | crates/kanari-types/src/transaction.rs:559-585 | the lane is that of the first mutable input, else of the first input, else of the first gas coin, else of the sender |
| `Selection.BeforeIsTotal` | crates/kanari-core/src/engine.rs:1684-1692 | the sort key puts any two transactions with different hashes in one order, never in both |
| `Selection.BeforeIff` | crates/kanari-core/src/engine.rs:1684-1692 | the order is by lane rank if it counts (no inputs, owned, shared), then lane text, sender text, nonce, hash, each ascending |
| `Selection.SortIsSorted` | crates/kanari-core/src/engine.rs:1684-1692 | sorting orders the pool and keeps its transactions as a multiset |
| `Selection.SortedIsUnique` | crates/kanari-core/src/engine.rs:1684-1692 | a pool with distinct hashes has one sorted order |
| `Selection.SortedByKey` | crates/kanari-core/src/engine.rs:1764-1782 | in the sorted pool a transaction is in front of another if and only if it precedes it by that key, with lane-aware selection on or off |
| `Selection.SelectConflictFree` | crates/kanari-core/src/engine.rs:1598-1640 | the loop with its reserved keys is the greedy pick |
| `Selection.GreedyIsMaximal` | crates/kanari-core/src/engine.rs:1598-1640 | the pick is a subsequence with disjoint keys, and every dropped transaction clashes with an earlier chosen one |
| `Selection.PickedLanesDiffer` | crates/kanari-core/src/engine.rs:1657-1692 | no two picked transactions share a lane |
| `Selection.FillVertex` | crates/kanari-core/src/engine.rs:1776-1811 | the hot-object counter never reaches its cap: the vertex is the longest front of the pick within the other caps |
| `Selection.PendingDagBatch` | crates/kanari-core/src/engine.rs:1758-1811 | the batch is canonical: transactions of the pool in ascending rank, lane, sender, nonce and hash, without clashes and within both caps; whoever is left out clashes with an earlier member or is at or behind where a cap ended the batch. It is the front of the greedy pick over the sorted pool |
| `OneBatch.CanonicalIsUnique` | crates/kanari-core/src/engine.rs:1758-1811 | a batch is canonical if and only if it is the one the snapshot returns, for any pool without repeated hashes: the specification leaves no choice |
| `Selection.DagBatchForgetsArrival` | crates/kanari-core/src/engine.rs:1758-1811 | two pools with the same transactions, in any order, give the identical DAG batch |
| `Selection.FittingFront` | crates/kanari-core/src/engine.rs:1784-1811 | count and bytes stay within the caps, and the batch stops only where a cap bites |
| `Selection.DagBatchEmptyIff` | crates/kanari-core/src/engine.rs:1758-1811 | the batch is empty if and only if the pool is, or its first transaction does not fit alone |
| `Selection.FastPathForgetsArrival` | crates/kanari-core/src/engine.rs:1722-1756 | the owned fast-path batch is independent of arrival order too |
| `Selection.BatchSplitsPool` | crates/kanari-core/src/engine.rs:1758-1811 | removing the batch splits the pool: nothing is lost or doubled |
| `Selection.RoundsDrainThePool` | crates/kanari-core/src/engine.rs:1758-1811 | if every transaction fits alone, repeated rounds put each transaction in exactly one batch and end |
| `Selection.FastPathIsMaximal` | crates/kanari-core/src/engine.rs:1722-1756 | the fast path holds owned transactions of the pool only, with disjoint keys and within its cap; below the cap every owned one left out clashes with one taken |
| `Overtaking.DagLowerNonceFirst` | crates/kanari-core/src/engine.rs:1758-1811 | of two pending transactions of one lane, sender and rank, the higher nonce is not in the batch if it needs every key of the lower one |
| `Overtaking.FastPathLowerNonceFirst` | crates/kanari-core/src/engine.rs:1730-1756 | the same for the owned fast path, which ignores ranks |
| `Overtaking.OvertakenIsHeldBack` | crates/kanari-core/src/engine.rs:1598-1640 | a batch that holds the higher nonce while the lower one is pending also holds an earlier transaction that has a key of the lower one and none of the higher one |
| `Overtaking.OvertakenIff` | crates/kanari-core/src/engine.rs:1758-1811 | some pool gives a batch with the higher nonce while the lower one is pending if and only if the higher one fits a vertex, lacks a key of the lower one, and a lane free of its keys comes before theirs |
| `Overtaking.SecondNonceFirst` | crates/kanari-core/src/engine.rs:1758-1811 | one such pool: two calls on one object with gas coins g and h, and a payment with g; the batch is the payment and the second nonce |
| `Chain.Blockchain.constructor` | crates/kanari-core/src/blockchain.rs:73-82 | a new chain satisfies the whole invariant |
| `Chain.Blockchain.Validate` | crates/kanari-core/src/blockchain.rs:167-195 | validation accepts exactly the next, linked checkpoint without duplicate or retained hashes |
| `Chain.Blockchain.TrimQueue` | crates/kanari-core/src/blockchain.rs:214-231 | trimming keeps the last 2,000,000 hashes, the executed set equal to them, and every index entry right |
| `Chain.Blockchain.Track` | crates/kanari-core/src/blockchain.rs:214-231 | tracking extends the log by the checkpoint's hashes and indexes each at its position |
| `Chain.Blockchain.AddCheckpoint` | crates/kanari-core/src/blockchain.rs:167-212 | accepted if and only if acceptable; a rejected one changes nothing; queue, set, index, window and counter stay right over every run |
| `Chain.Blockchain.Evict` | crates/kanari-core/src/blockchain.rs:200-211 | eviction removes the oldest non-genesis checkpoint and leaves every index entry pointing at the newest occurrence |
| `Chain.Blockchain.Rebuild` | crates/kanari-core/src/blockchain.rs:129-159 | from any index contents, a rebuild reaches the invariant over the retained checkpoints and keeps the lifetime counter |
| `Chain.Blockchain.Locate` | crates/kanari-core/src/blockchain.rs:255-286 | in every reachable state: nothing if and only if no retained checkpoint holds the hash; else the transaction at its newest occurrence, with sequence and state root of that checkpoint and the effect at its own index, none exactly when the effects are too short; the index and a newest-first scan agree |
| `Chain.Blockchain.TransactionCount` | crates/kanari-core/src/blockchain.rs:244-248 | the reported count is the length of all checkpoints ever accepted, and bounds the index and the window |
| `Chain.Blockchain.GetCheckpoint` | crates/kanari-core/src/blockchain.rs:237-242 | a checkpoint is found by sequence whenever the window holds it |
| `Chain.Blockchain.RetainedHashesAreGuarded` | crates/kanari-core/src/blockchain.rs:185-195 | an acceptable checkpoint repeats none of the last 2,000,000 committed hashes, which are distinct |
| `Chain.Blockchain.EnsureGenesis` | crates/kanari-core/src/blockchain.rs:103-117 | a lost genesis is put back in front within the bound, without changing the height, and the window is well linked again |
| `Chain.NewestIsScanned` | crates/kanari-core/src/blockchain.rs:270-286 | the scan finds the newest occurrence of a hash |
| `Chain.ScanTells` | crates/kanari-core/src/blockchain.rs:270-286 | the scan finds nothing exactly when the hash is absent, else the first occurrence in the newest checkpoint that has it |
| `Chain.WindowIsRecent` | crates/kanari-core/src/blockchain.rs:197-211 | after any number of appends the window is the first checkpoint and the 999 most recent of the rest, in order |
| `Chain.Blockchain.AcceptableIff` | crates/kanari-core/src/blockchain.rs:167-195 | in every reachable state a checkpoint is acceptable if and only if it is next, linked, and repeats no hash within itself or within the last 2,000,000 of the log |
| `Chain.AppendKeeps` | crates/kanari-core/src/blockchain.rs:167-212 | links, log, queue and lifetime count survive an accepted append and the eviction it causes |
| `P2P.CompressionRoundTrip` | crates/kanari-node/src/p2p.rs:525-588 | processing what was compressed gives the message back, or nothing exactly when a compressible payload exceeds 32 MiB |
| `P2P.CompressedIff` | crates/kanari-node/src/p2p.rs:525-588 | exactly the compressible payloads above 100,000 bytes go out packed, on the topic of the plain message |
| `P2P.PiecesJoin` | crates/kanari-node/src/p2p.rs:612-625 | the pieces of a payload, in order, are the payload |
| `P2P.PiecesCount` | crates/kanari-node/src/p2p.rs:603-620 | there are as many pieces as the rounded-up division announces in every chunk |
| `P2P.SplitIntoChunks` | crates/kanari-node/src/p2p.rs:603-625 | the loop emits each piece once, numbered, under the payload's hash |
| `P2P.Publish` | crates/kanari-node/src/p2p.rs:590-630 | fails if and only if the encoding is above 32 MiB; within 4 MiB exactly one message goes out with that encoding, no chunk, and a plain one is processed to what arrives, or to nothing exactly beyond the decompression limit; between the two, numbered chunks whose data join to the encoding; the chunk-count error is unreachable |
| `Reassembly.FilledFits` | crates/kanari-node/src/p2p.rs:1169-1190 | a well-formed chunk never meets the 32 MiB rejection: the chunk-count limit bites first |
| `Reassembly.AcceptIsSound` | crates/kanari-node/src/p2p.rs:1124-1217 | whatever arrives, both in-flight limits hold and every assembly is incomplete and accounts for its bytes |
| `Reassembly.RunIsSound` | crates/kanari-node/src/p2p.rs:1124-1217 | the same over every run of arrivals |
| `Reassembly.AcceptForgetsExpired` | crates/kanari-node/src/p2p.rs:1125-1126 | after any arrival no assembly is older than 30 seconds |
| `Reassembly.DeliveredIsAuthentic` | crates/kanari-node/src/p2p.rs:1192-1217 | for any codec and any history, a delivered message is decoded to the last byte from bytes that hash to the transfer id, is no chunk, and is on the topic |
| `Reassembly.OpensIff` | crates/kanari-node/src/p2p.rs:1124-1190 | the first chunk of a transfer opens it, with that chunk alone, if and only if both limits leave room among the transfers still in time; all others stay as they are |
| `Reassembly.Disagrees` | crates/kanari-node/src/p2p.rs:1124-1190 | a malformed chunk changes nothing, one with another total or topic ends its transfer, and no other is touched |
| `Reassembly.ForeignStep` | crates/kanari-node/src/p2p.rs:1124-1217 | a chunk of any other transfer leaves a live transfer as it was |
| `Reassembly.OwnPlaced` | crates/kanari-node/src/p2p.rs:1156-1217 | an own chunk, new or repeated, records progress, and the last missing one yields the message |
| `Reassembly.TransferDelivers` | crates/kanari-node/src/p2p.rs:1124-1217 | over every interleaving, reordering and repetition: nothing is delivered until the last missing chunk, which delivers exactly the message |
| `Reassembly.PublishedArrives` | crates/kanari-node/src/p2p.rs:590-630 | publish, transport, reassembly and decompression compose to the message, unless it is beyond the decompression limit |
| `Reassembly.Reassembler.AcceptChunk` | crates/kanari-node/src/p2p.rs:1124-1217 | the imperative receiver is the accept function and keeps its invariant |
| `Reassembly.Reassembler.Complete` | crates/kanari-node/src/p2p.rs:1192-1217 | completion joins the slots, checks hash, framing, nesting and topic |
| `Backup.NumberRoundTrip` | crates/kanari-node/src/validator_backup.rs:583-600 | big-endian lengths are read back for every value that fits |
| `Backup.PrefixRoundTrip` | crates/kanari-node/src/validator_backup.rs:583-600 | a length-prefixed field is read back, with what follows it, exactly when it is within the limit |
| `Backup.ValidatedIsSafe` | crates/kanari-node/src/validator_backup.rs:564-581 | a validated entry is restored to a path of plain segments inside its base |
| `Backup.RecordRoundTrip` | crates/kanari-node/src/validator_backup.rs:548-562 | a written record is read back byte for byte, unless it is larger than 8 GiB |
| `Backup.ParseWritten` | crates/kanari-node/src/validator_backup.rs:861-934 | parsing written records is restoring the files one after another |
| `Backup.StageAllIff` | crates/kanari-node/src/validator_backup.rs:861-934 | restoring succeeds if and only if the files are routable, within limits and at pairwise compatible paths, and then the trees are exactly theirs |
| `Backup.FileIsAtItsPlace` | crates/kanari-node/src/validator_backup.rs:384-434 | each restored file is at its place with its contents |
| `Backup.WriterAcceptsMore` | crates/kanari-node/src/validator_backup.rs:548-581 | a name the writer accepts and the reader refuses |
| `Backup.ExportedIsRestorable` | crates/kanari-node/src/validator_backup.rs:195-226 | the file list a validator exports is restorable, up to sizes and the number of logs |
| `Backup.PayloadRoundTrip` | crates/kanari-node/src/validator_backup.rs:522-546 | reading a written payload, whatever follows it, gives manifest and files back exactly when it is within the reader's limits |
| `Backup.TruncatedIsRejected` | crates/kanari-node/src/validator_backup.rs:821-976 | no proper prefix of any written payload is restored, for any network |
| `Backup.StreamRecords` | crates/kanari-node/src/validator_backup.rs:540-562 | the writing loop emits all records, or fails exactly when a name is invalid |
| `Backup.StreamPayload` | crates/kanari-node/src/validator_backup.rs:522-546 | the streamed payload is the written payload |
| `Backup.StreamRestore` | crates/kanari-node/src/validator_backup.rs:861-934 | the record loop is the recursive parser, on every input |
| `Backup.EnvelopeRoundTrip` | crates/kanari-node/src/validator_backup.rs:777-819 | opening a sealed payload restores it, with the digest checked, if its header is within the limit |
| `Backup.SettleIff` | crates/kanari-node/src/validator_backup.rs:935-964 | a restored payload settles if and only if the snapshot reads and imports to the manifest's height and root and no file meets one of the imported state |
| `Backup.ExportedKeepsClear` | crates/kanari-node/src/validator_backup.rs:195-226 | no file a validator exports uses the name of a staging directory |
| `Backup.BackupRoundTrip` | crates/kanari-node/src/validator_backup.rs:312-362 | export then import gives the imported state and every file at its place if and only if the backup is within the reader's limits and its snapshot imports to what was written, with room for the files |
| `Authenticity.ParseAny` | crates/kanari-node/src/validator_backup.rs:861-934 | records from anywhere are restored if and only if each has a valid name, is within the limits and stands behind the hash of its data, and each finds its place |
| `Authenticity.UnsealAny` | crates/kanari-node/src/validator_backup.rs:777-819 | opening any file: exactly one that passes version, size, digest, network, count-limit and record checks is staged and settled |
| `Authenticity.WrongDigest` | crates/kanari-node/src/validator_backup.rs:805-809 | a file that decrypts to bytes with another digest than its header names is refused, whatever is inside |
| `Authenticity.WrongHash` | crates/kanari-node/src/validator_backup.rs:861-934 | a file with one record behind another hash than that of its data is refused |
| `Authenticity.WrongCount` | crates/kanari-node/src/validator_backup.rs:935-946 | a file whose manifest counts other than its records besides the snapshot is refused |
| `Authenticity.StagedEach` | crates/kanari-node/src/validator_backup.rs:861-934 | after staging, every file of the list is at its place with its contents, none replaced, and all but the snapshot are counted |
| `Authenticity.AcceptedIsAuthentic` | crates/kanari-node/src/validator_backup.rs:777-976 | for any hash, cipher, compression and JSON: whatever is restored comes from a file made of a header, a manifest and records that pass every check, with a snapshot that reads and imports to the height and root reported |
| `Promotion.DataOccupied` | crates/kanari-node/src/validator_backup.rs:480-520 | when the data folder is promoted, something is inside it if and only if recovery lies inside data |
| `Promotion.RecoveryOccupied` | crates/kanari-node/src/validator_backup.rs:480-520 | when the recovery folder is promoted, something is inside it if and only if data lies inside it, or is it and holds a file |
| `Promotion.Host.Import` | crates/kanari-node/src/validator_backup.rs:653-690 | it succeeds with an authentic file only, and reports what its manifest says; a file that is not restored leaves no file on disk, at most new folders; on one disk tree, for any two targets, where each failure leaves the disk; no staging folder remains |
| `Promotion.ImportLosesNothing` | crates/kanari-node/src/validator_backup.rs:480-520 | whatever the outcome, every entry that was on disk is still there |
| `Promotion.ImportPlacesAll` | crates/kanari-node/src/validator_backup.rs:480-520 | after success every restored file is under its target with its contents |
| `Promotion.ImportSucceedsIff` | crates/kanari-node/src/validator_backup.rs:480-520 | success exactly when the backup restores, both targets are vacant, no file is in the way of their parents, neither lies inside the other, and they differ unless no data file is restored |
| `Promotion.RefusedAddsNoFile` | crates/kanari-node/src/validator_backup.rs:777-819 | a backup that is refused, at any point, leaves everything as it was apart from new folders |
| `NativeCoin.BalanceRoundTrip` | crates/kanari-core/src/engine.rs:713-726 | a written coin balance is read back and nothing but its eight bytes changes |
| `NativeCoin.TransferConserves` | crates/kanari-core/src/engine.rs:734-887 | a split moves exactly the amount from sender to recipient in the ledger and between two coins, a whole coin changes hands; ledger total and coin total are kept, up to what a reused output id overwrites |
| `NativeCoin.ExecuteTransfer` | crates/kanari-core/src/engine.rs:734-887 | goes through exactly under the checks of `NativeCoin.CanIff`; a failed one leaves the changeset untouched |
| `NativeCoin.BurnConserves` | crates/kanari-core/src/engine.rs:625-711 | a burn takes exactly the amount from the ledger total and from the coin total, plus the gas when the coin is emptied |
| `NativeCoin.ExecuteBurn` | crates/kanari-core/src/engine.rs:625-711 | goes through exactly when one owned coin covers amount and gas without overflow; a failed one leaves the changeset untouched |
| `NativeCoin.CanIff` | crates/kanari-core/src/engine.rs:625-887 | a transfer goes through exactly with one coin of the sender for the amount and another for gas, a burn with one coin for both; the overflow check of a burn never decides |
| `NativeCoin.GasStaysCovered` | crates/kanari-core/src/engine.rs:625-887 | what a call writes leaves the gas coin able to pay the gas, or deletes it exactly when a burn and its gas empty it |
| `NativeCoin.NativeCallBalances` | crates/kanari-core/src/engine.rs:3103-3160 | owner deltas with gas sum to zero, or minus the amount for a burn, and the supply moves by exactly that |
| `NativeCoin.FailedCallPaysGasOnly` | crates/kanari-core/src/engine.rs:3103-3160 | a failed call writes no object and moves its gas from sender to collector, or nothing when the collector sends it |
| `BurnBatch.BurnIsExecuted` | crates/kanari-core/src/engine.rs:3134-3160 | the burn whose batching is studied is the changeset the engine returns |
| `BurnBatch.BatchedBurnIff` | move-execution/v1/kanari-move-runtime-v1/src/state/apply.rs:1299-1416 | the batched path takes a burn exactly when its coin is the one gas coin, is not emptied and still covers the whole debit; what it stores and what the ordinary path stores, for any sender |
| `BurnBatch.BatchedBurnTakesTwice` | move-execution/v1/kanari-move-runtime-v1/src/state/apply.rs:1378-1390 | with the gas going to another: taken if and only if the balance is at least twice the amount plus gas, and then stored short by the amount |
| `History.PruneTwice` | crates/kanari-core/src/engine.rs:1271-1306 | pruning to a and then to b is pruning once to the larger, on every part of the store |
| `History.PrunedExactly` | crates/kanari-core/src/engine.rs:1274-1306 | after pruning no batch of the range, none of its payloads and none of its recent hashes is left; every other one is, and metadata, hash index and watermark are untouched |
| `History.PrunedStaysPrunedIff` | crates/kanari-core/src/engine.rs:1274-1306 | over any run of writes and prunes, no batch is left at or below the pruned point if and only if none was at the start and every write of transactions was above it when made: one written below is never pruned again |
| `History.WatermarkStep` | crates/kanari-core/src/engine.rs:1068-1091 | a write raises each sender's mark to the larger of the reset mark and the checkpoint's nonces |
| `History.WatermarkIsMaximumIff` | crates/kanari-core/src/engine.rs:1068-1091 | after any run the mark is the largest committed nonce if and only if earlier nonces are below 2^53 or the last write holds the largest |
| `History.LargeNonceIsForgotten` | crates/kanari-core/src/engine.rs:1069-1083 | one nonce of 2^53 and one later write of somebody else, and the mark is 0 |
| `History.RepersistKeepsWatermark` | crates/kanari-core/src/engine.rs:1013-1105 | writing a checkpoint again leaves the watermark map as it is |
| `History.CommittedForever` | crates/kanari-core/src/engine.rs:1400-1421 | over any run of writes and prunes, an indexed transaction stays committed and metadata stays |
| `History.IndexPointsToBatch` | crates/kanari-core/src/engine.rs:1040-1056 | a written transaction is found where its hash points, in the batch of its checkpoint |
| `History.PersistedExactly` | crates/kanari-core/src/engine.rs:1013-1105 | a write touches its own metadata, batch and hashes and no other; without transactions, or at sequence 0, only the metadata |
| `History.RecentGrows` | crates/kanari-core/src/engine.rs:1037-1067 | while there is room, a write only adds to the recent hashes |
| `History.NewHashIsRecent` | crates/kanari-core/src/engine.rs:1037-1067 | trimming never drops a hash that the written checkpoint added |
| `History.RecentIsBounded` | crates/kanari-core/src/engine.rs:1037-1067 | over any run the recent list has no duplicates and at most 100,000 hashes |
| `History.Store.PersistCheckpoint` | crates/kanari-core/src/engine.rs:1013-1105 | the loops over the transactions write exactly the specified store |
| `History.Store.PrunePayloads` | crates/kanari-core/src/engine.rs:1274-1306 | the pruning loops are that operation, from any store |
| `Sessions.ListedOnce` | crates/kanari-auth/src/session.rs:205-245 | each stored session is listed exactly once, under its own email and no other |
| `Sessions.AtMostFive` | crates/kanari-auth/src/session.rs:215-224 | at most five sessions are stored per email, and a list has at most six ids |
| `Sessions.CreatedIsGood` | crates/kanari-auth/src/session.rs:205-245 | creating keeps the index invariant, with expiry and the eviction of the oldest session |
| `Sessions.CreatedExactly` | crates/kanari-auth/src/session.rs:205-245 | a session survives a creation exactly unless it is an expired one of that email or, at the limit, its oldest live one |
| `Sessions.CreatedLists` | crates/kanari-auth/src/session.rs:205-245 | the list of the email becomes its live ids with the new one behind; every other list stays |
| `Sessions.LiveKeepsOrder` | crates/kanari-auth/src/session.rs:313-334 | the live ids keep the order of creation, so the first is the oldest |
| `Sessions.InvalidatedIsGood` | crates/kanari-auth/src/session.rs:283-298 | invalidating keeps the index invariant, with the one stale id still in front |
| `Sessions.InvalidatedAllIsGood` | crates/kanari-auth/src/session.rs:301-310 | invalidating all keeps the index invariant and leaves no stored session for the email |
| `Sessions.InvalidatedExactly` | crates/kanari-auth/src/session.rs:283-298 | invalidating forgets that session and takes its id out of its list, the others in order; every other session and list stays; an unknown id changes nothing |
| `Sessions.InvalidatedAllExactly` | crates/kanari-auth/src/session.rs:301-310 | invalidating all forgets exactly the sessions and the list of that email |
| `Sessions.SessionManager.CleanupExpired` | crates/kanari-auth/src/session.rs:313-334 | cleanup removes exactly the expired sessions and the ids without one, in order |
| `Sessions.SessionManager.CreateSession` | crates/kanari-auth/src/session.rs:205-245 | the method is that operation and keeps the invariant |
| `Sessions.SessionManager.InvalidateSession` | crates/kanari-auth/src/session.rs:283-298 | succeeds exactly for a stored id, which is then gone |
| `Sessions.SessionManager.InvalidateAll` | crates/kanari-auth/src/session.rs:301-310 | the loop leaves no stored session for the email and keeps the invariant |
| `TypeTags.SplitTopLevelCommas` | crates/kanari-core/src/engine.rs:258-279 | the one-pass scan splits at exactly the commas outside brackets |
| `TypeTags.TagIsAbsorbed` | crates/kanari-core/src/engine.rs:258-279 | a rendered tag is never split, at any depth and after any text |
| `TypeTags.SplitRendered` | crates/kanari-core/src/engine.rs:258-279 | splitting a rendered list of tags gives back the rendered tags |
| `TypeTags.PiecesOf` | crates/kanari-core/src/engine.rs:298-316 | a rendered struct is taken apart into the address, module, name and arguments it was made of |
| `TypeTags.RoundTrip` | crates/kanari-core/src/engine.rs:257-339 | parsing the rendering of any tag, however nested, gives the tag back if and only if every primitive in it is supported, else nothing |
| `TypeTags.ParsedIsProper` | crates/kanari-core/src/engine.rs:257-339 | whatever text is accepted, its tag has identifiers for names and supported primitives only, at every depth |
| `TypeTags.ParseIsStable` | crates/kanari-core/src/engine.rs:257-339 | rendering what any text was parsed to and parsing it again changes nothing |

## Left out

- Ledger.EachIff: the rule from an owner's delta, credit and coins to its recorded balance is any function of that owner's figures; its debit check and reconciliation are used only through `Debits.Prudent` and `Debits.Room`. Not modelled are token balance hints, a total supply set by a treasury, object-locked reconciliation, the identical clock replay that keeps its version, versions proposed for new objects, an id both deleted and created by one changeset, a gas coin written with its own id as owner, and 128-bit overflow of deltas; an account removed because it is empty reads the same.
- Merging.MergedIsEachIff: states are compared by contents; the epoch, which counts applications, differs. Conflict-free changesets satisfy its condition on objects (`Batches.ConflictFreeIsApart`).
- Waves.CommittedWaveIff: the legacy supply repair is taken to find nothing to do in the states the wave passes through; a repair that changed balances between two transactions is not compared.
- Speculation.Engine.ExecuteWaves: after the first harmful wave nothing more is claimed about the rest of the call.
- Speculation.Engine.ExecuteConflictFree: on the trusted owned-native path no equality with serial execution is claimed; `BurnBatch.BatchedBurnIff` shows where it is not the ordinary path.
- Speculation.Engine.ReplaySerially: other writers between two transactions of a replay are assumed absent.
- Speculation.Engine.SpeculateWave: lock order, poisoning and liveness are not modelled, including the fallback that crates/kanari-core/src/engine.rs:2190-2197 calls while it holds the write guard.
- Execution.RecomputedIff: that checks and body look only at declared keys (`Execution.Declares`) is proved for native calls and a hypothesis about the VM and its resolver for Move calls; so is that no body reports an error in the guard's own words.
- NativeCalls.NativeIsModelled: versions, digests and owner kinds that a transaction declares are one arbitrary test of the declared objects; the charge of a transaction that failed before it returned a changeset is an error in this runtime.
- NativeCalls.NativeDebitStands: a failed or refused call of another sender, whose book an earlier transaction of the wave changed, is not covered; its debit is gas only.
- BurnBatch.BatchedBurnIff: events, NFT capabilities, token balance hints and shared or immutable inputs, which make the batched path decline, are not part of a modelled changeset; one changeset is considered at a time.
- Chain.Blockchain.AddCheckpoint: checkpoints added without validation and counter saturation at the machine word are not modelled.
- Chain.Blockchain.Rebuild: filling transactions back in from storage before the rebuild is not modelled.
- Selection.PendingDagBatch: the mempool's admission, counters and removal are not modelled; the pool is a list.
- Reassembly.TransferDelivers: a repeated chunk after delivery opens a new transfer, which expires; nothing more is said about it.
- P2P.Publish: gossip transport, priorities, retries and peer management are not modelled.
- Promotion.Host.Import: file-system errors, links, empty directories inside a restored tree, file-name limits and the first backup format are not modelled; how far a rejected file was read before the failure is a parameter, and so are the random staging names.
- Backup.BackupRoundTrip: an entry whose first path segment is the staging directory's own name (`data-files`, `recovery-files`) has an arbitrary outcome here; the name check repeated while staged files are moved is not modelled.
- NativeCoin.TransferConserves: object versions, owner kinds and ids are not modelled; gas is taken from the gas coin at apply time, outside this statement.
- Gas.ChargeIsWithinMeans: the price is the effective price of whichever gas model is selected; both charging paths read the same balance.
- History.Store.PersistCheckpoint: the blockchain JSON snapshot, superseded metadata formats and storage errors are not modelled.
- Sessions.SessionManager.CreateSession: session ids are assumed fresh, as random tokens are; timeouts and key erasure are behind the expiry predicate.
- TypeTags.RoundTrip: the address parser and the identifier check are parameters that accept what they print and refuse the syntax's own characters.
- The Move VM, the sparse Merkle tree, Mysticeti consensus, RPC, wallets and the frontend are not part of this model.
