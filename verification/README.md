# A verified model of the Full Service wallet

Full Service is a wallet for the MobileCoin ledger. It keeps its accounts, subaddresses, transaction
outputs (txos) and transaction logs in a SQLite database, scans the blocks of the ledger into that
database, chooses coins to spend, records transactions as they are built, signed and submitted, and
reports balances. This project models that core in Dafny and proves what it promises, over every
run of the wallet. `dafny verify dfyconfig.toml` checks the whole project.

## How the model is built

- **Tables.** `Schema.Db` holds the tables as values: accounts, subaddresses, txos, logs, their input
  and output links, and the two memo tables. Unsigned columns are stored as `i64` and read back as
  `u64`, as the database does.
- **Operations.** The class `WalletDb.WalletDb` has one field per table and updates them in place, with
  the loops of the source. Each method is proved against a function on values (`Scan`, `Logging`,
  `Addresses`, `Removal`, `Queries`, `Balances`), and the theorems are about those functions.
- **Ledger.** A sequence of blocks, each with outputs and key images (`Ledger`). Cryptography is ideal:
  an output carries the account whose view key decodes it and the subaddress key this account recovers;
  spend keys and key images are injective in what they are derived from.
- **Runs.** `Steps.Step` lists what can happen: the ledger grows, an account syncs a chunk, a transaction
  is built, signed or submitted, a subaddress is assigned, an account is resynced, created or removed.
  `Lifecycle.Run` applies a sequence of steps. `Refinement.World` adds two history values that no
  operation reads: the highest cursor of the account under study, and the txos whose spent block was
  written by orphan repair.

| file | content |
|---|---|
| `CoinSelection` | sorting, the most that can be spent, the sliding window |
| `Scan`, `Refinement`, `Runs`, `Resync`, `Reimport` | scanning a chunk, the rows as a function of the ledger, every run, rescans and re-imports |
| `Logging`, `Recording`, `Lifecycle` | recording transactions, when it succeeds, the life of a log |
| `Verdicts`, `VerdictRuns`, `TwoAccounts`, `SharedInput` | the verdict on a transaction in one step, over every run, and in concrete wallets |
| `Queries`, `Coins`, `Balances`, `WalletStatus` | the status queries, conservation, balances of accounts and of the wallet |
| `Addresses`, `AddressRuns`, `ViewOnly`, `Removal`, `Integrity`, `Steps` | subaddresses and orphan repair, also of view-only accounts, account removal, foreign keys, the steps |
| `WalletDb` | the database object |
| `Mixins`, `Tokens`, `SqlText` | decoy sampling, display amounts, SQL string literals |

## What the theorems assume

- **Ledger** (`Ledger.Valid`): ids and public keys of outputs never repeat, a key image lands at most
  once and not before its output, and an output is addressed to the account that can view it.
- **Steps** (`Steps.Enabled`): transactions are recorded with inputs that their account owns and has not
  spent, with the key images already on record. Recording clears the spent block of its inputs
  (`Recording.SubmittedAfresh`), so this is needed (`VerdictRuns.SubmissionNeedsUnspent`). Recording a
  submission for a log that exists touches no txo and needs nothing.
- **Full accounts.** Refinement, conservation and resync are stated for accounts with spend keys. Any
  number of other accounts, view-only ones included, may take part in a run. `ViewOnly`, `Resync` and
  `Queries.PartitionIffSorted` say what holds for view-only accounts themselves.
- **Verdicts** assume nothing more: logs of other transactions may spend the same inputs, early or late, any
  account may sync, and the log may be signed again. Only `VerdictRuns.VerdictInTime`, a special case, adds that
  the tombstone is ahead of the scan and stays, and that no open input lands after it.
- **Landing together.** `Runs.RunKeepsCoins` and `Runs.RunConserves` assume that while a log is pending its
  inputs land together or not at all (`Runs.TogetherThroughout`). Two pending logs that share an input
  break this, and `Coins.SharedInputLosesACoin` shows the coin that is then lost.
  `Coins.BalancesConserve` and the verdict theorems do not assume it.
- **Atomicity.** Signing, assigning, creating and scanning run inside a transaction and leave nothing
  behind on an error; building, which no service calls, is modelled the same way. Recording a
  submission does not (`full-service/src/service/transaction.rs:630`), so its partial rows stay.

## Where the code does something other than one might expect

- A coin with a failed or unsubmitted log and a pending log is listed as unspent, as pending and as
  spendable (`Queries.OverlapCountsTwice`), so the balances then add up to too much.
- A log succeeds as soon as one of its inputs lands, so when two pending logs share an input the overtaken
  one succeeds too, and its other inputs vanish from every balance (`Coins.SharedInputLosesACoin`,
  `Coins.OvertakenCoinIsLost`, `SharedInput.OtherCoinIsLost`).
- Orphan repair calls the output's own block its spent block (`Runs.RepairWritesOwnBlock`). The rows are
  those of the ledger exactly when every repaired output was spent in its own block
  (`Runs.ScanRefinement`), and assigning early or late differs in that number and in nothing else.
- The tombstone update is not limited to the scanning account. A transaction that lands in time is
  Succeeded exactly when no other account's chunk passed the tombstone first
  (`VerdictRuns.VerdictInTime`, `TwoAccounts.OrderDecides`). Inputs spent before the submission is recorded no longer count
  (`VerdictRuns.LateLogNeverSucceeds`).
- A key image that lands after the tombstone makes the log succeed or fail depending on where the chunk
  ends (`Verdicts.LateLandingDependsOnTheChunk`, `VerdictRuns.VerdictByLanding`).
- Rescanning a view-only account drops key images (`Resync.ViewOnlyRescanCountsTwice`,
  `Resync.ViewOnlyRescanHarmlessIff`).
- An account that is removed can leave spent outputs of its own behind, when logs of other accounts use
  them. Imported again, it finds them with the spent blocks they had (`Reimport.ReimportedRows`), even where
  their address has not been assigned again.
- The wallet overview adds up all balances but keeps the `max_spendable` of the first account.
- `InsufficientFunds` is returned, and no coins, for a target of zero.
- A log is never reported as signed: without a submission its status is Built
  (`full-service/src/db/transaction_log.rs:396-406`).

## Model

| member | source | states |
|---|---|---|
| CoinSelection.SelectSpendableTxosForValue | full-service/src/db/txo.rs:1862-1949 | A non-empty eligible list succeeds if and only if 0 < target <= the best sum of MAX_INPUTS eligible coins, whatever the fee; each error is told apart exactly; a success has 1 to 16 distinct coins, each of them found and not above the caller's limit, that reach the target, is the first window of the ascending order that does, and minimises the largest coin spent |
| CoinSelection.FirstWindowIsMinimax | full-service/src/db/txo.rs:1911-1948 | Among all sets of at most k coins that reach the target, each contains a coin at least as large as every coin of the first sufficient window |
| CoinSelection.WindowMonotone | full-service/src/db/txo.rs:1925-1939 | Sliding the window up never lowers its sum |
| CoinSelection.WindowIsBest | full-service/src/db/txo.rs:1911-1948 | No choice of at most k of the first m coins is worth more than the window that ends at m |
| CoinSelection.SlideWindow | full-service/src/db/txo.rs:1911-1948 | The pop, push and remove loop stops at the first window that reaches the target, or runs out of coins only when no window reaches it |
| CoinSelection.SortDescending | full-service/src/db/txo.rs:1836-1836 | The sort returns a permutation in descending order of the unsigned values |
| CoinSelection.ListSpendable | full-service/src/db/txo.rs:1784-1860 | The list holds exactly the coins found whose unsigned value is not above the limit; the reported maximum is the maximum, over all sets of at most MAX_INPUTS of them, of their sum less the fee, floored at 0, with values above i64::MAX stored negative |
| CoinSelection.TopSumIsBest | full-service/src/db/txo.rs:1844-1854 | The head of the descending order less the fee is that maximum: no set exceeds it and one attains it |
| CoinSelection.PayableIffTopSum | full-service/src/db/txo.rs:1844-1854 | Some set of at most k coins reaches the target if and only if the head of the descending order does |
| CoinSelection.ListedCoins | full-service/src/db/txo.rs:1828-1836 | Sorting and the limit keep exactly the coins found whose unsigned value is not above the limit |
| WalletDb.WalletDb.SelectSpendableTxosForValue | full-service/src/db/txo.rs:1862-1949 | On the tables: selection succeeds if and only if the target is positive and some set of at most 16 spendable txos in scope and not above the limit reaches it; every coin chosen is an unspent txo of the account and token within the limit and, for an address, lies at the index of that address; what is chosen minimises the largest coin; each of the four errors has its exact condition; an unassigned address is the only other outcome |
| WalletDb.WalletDb.LoadChunk | full-service/src/service/sync.rs:191-222 | The block loop collects exactly the outputs and key images of the next 1000 blocks, or of those left, tagged with their blocks, and finds nothing exactly at the end of the ledger |
| WalletDb.WalletDb.DecodeAmounts | full-service/src/service/sync.rs:314-321 | Exactly the outputs that the view key decodes are kept, in order |
| WalletDb.WalletDb.CreateReceived | full-service/src/db/txo.rs:755-831 | Inserting or updating a received output gives the row that its block dictates and keeps the spent column of an existing row |
| WalletDb.WalletDb.ReceiveAll | full-service/src/service/sync.rs:323-352 | Receiving the decoded outputs one by one is the fold of single receipts, whose rows Scan.ReceiveAllAt gives column by column |
| WalletDb.WalletDb.ListUnspentOrPendingKeyImages | full-service/src/db/txo.rs:1556-1590 | The index holds a key image if and only if a row of the account with a subaddress and without a spent block has it, and maps it to such a row |
| WalletDb.WalletDb.MatchKeyImages | full-service/src/service/sync.rs:354-364 | Matching returns the pairs of block and indexed txo in the order of the key images |
| WalletDb.WalletDb.UpdatePendingAssociatedWithTxoToSucceeded | full-service/src/db/transaction_log.rs:778-802 | Exactly the submitted, undecided logs that use the txo as input become finalised at the block |
| WalletDb.WalletDb.MarkSpent | full-service/src/service/sync.rs:366-373 | The loop over spent txos marks rows and finalises logs in the order of the matches |
| WalletDb.WalletDb.SyncAccountNextChunk | full-service/src/service/sync.rs:176-404 | Scanning a chunk takes the tables to what the chunk gives for some index from key images to the watched rows that hold them, and to the one value of the chunk function where no two rows share a key image; it moves the cursor to the end of the chunk, counts the received outputs and reports a missing account |
| WalletDb.WalletDb.SyncTurn | full-service/src/service/sync.rs:142-171 | An account behind the tip gets one chunk; one at the tip only stops resyncing |
| WalletDb.WalletDb.SyncAllAccounts | full-service/src/service/sync.rs:123-174 | A round gives every listed account exactly one turn, decided by the row listed at the start: the cursor moves by 1000 blocks or to the tip, and at the tip a resync ends; an empty ledger changes nothing |
| Scan.ReceiveAllAt | full-service/src/db/txo.rs:755-831 | Every decoded output ends with its own value, token, keys and block, the index of its target key if that is assigned, and for a full account then its key image; only the spent column survives from the row before |
| Scan.FinaliseAt | full-service/src/db/transaction_log.rs:778-802 | A pending log is finalised at the first matched block that spends one of its inputs, and no other log changes |
| Scan.ScanRowSound | full-service/src/service/sync.rs:340-373 | A chunk adds a spent block only to a row that was watched, and only the block in which its key image landed |
| Scan.ScanRowComplete | full-service/src/service/sync.rs:340-373 | Every watched row whose key image lands in the chunk is marked with that block |
| Scan.ScanLog | full-service/src/service/sync.rs:366-378 | The verdict a chunk gives a log: finalised at its first hit, else failed when its tombstone is passed, else unchanged |
| Scan.MarkSpentAt | full-service/src/db/txo.rs:941-952 | A txo matched at one block ends with that spent block and otherwise as it was |
| Scan.MarkSpentFrame | full-service/src/db/txo.rs:941-952 | Only the spent column changes, only of matched txos, and only to a block they were matched at |
| Scan.TombstonesAddUp | full-service/src/db/transaction_log.rs:804-820 | Exactly the undecided logs with a tombstone below the block fail, and failing at two blocks is failing once at the later, so chunk ends in between do not matter |
| Scan.ScannedColumns | full-service/src/service/sync.rs:323-352 | After a chunk, every output of it that the account decodes has its value, token, keys and block, the index of its target key exactly when that is assigned, and a key image exactly when it also has spend keys; for full and view-only accounts |
| Refinement.SyncSelf | full-service/src/service/sync.rs:176-404 | Scanning by the account keeps the invariant that its rows are the ones the scanned blocks dictate |
| Refinement.SyncOther | full-service/src/service/sync.rs:176-404 | Scanning by any other account, view-only ones included, keeps that invariant |
| Refinement.AppendKeepsInv | full-service/src/service/sync.rs:197-206 | A ledger that grows by a valid block keeps that invariant |
| Refinement.ReceivedUniqueImages | full-service/src/db/txo.rs:1556-1590 | For the full account under study, in every reachable state no two watched rows share a key image, so its chunk is matched unambiguously |
| Refinement.MyColumns | full-service/src/db/txo.rs:755-831 | The same columns in every reachable state, for every output scanned so far |
| Runs.StepKeepsInv | full-service/src/service/sync.rs:176-404 | Every step of the wallet (append, sync, build, sign, submit, assign, resync, create, remove another account) keeps the row invariant |
| Runs.RunKeepsRows | full-service/src/service/sync.rs:176-404 | The row invariant and all foreign keys hold after every admissible run |
| Runs.RunsConverge | full-service/src/service/sync.rs:176-404 | Any two admissible runs that end at the tip of one ledger with the same addresses leave the same rows, up to which block a repaired row calls the spent one |
| Runs.SpentAtTip | full-service/src/db/txo.rs:941-952 | At the tip a txo is marked spent if and only if it is addressed and its key image is in the ledger |
| Runs.FreshAccount | full-service/src/db/account.rs:549-613 | A new full account satisfies every invariant when the rows it finds belong to accounts that can view them and none is a spent leftover of its own |
| Runs.AssignCommutesWithScan | full-service/src/db/assigned_subaddress.rs:316-376 | Assigning before scanning or after it gives, at the tip, the same addresses and for every txo the same subaddress, key image and spent-or-not answer |
| Runs.RepairNeverFails | full-service/src/db/assigned_subaddress.rs:350-360 | Every orphan of the account is in the ledger, so repair finds its block |
| Runs.RepairWritesOwnBlock | full-service/src/db/assigned_subaddress.rs:350-360 | The spent block that repair writes is the block the output was created in |
| Runs.ScanRefinement | full-service/src/service/sync.rs:176-404 | After any admissible run the txo rows of a full account are exactly the declarative function of the blocks scanned (the outputs it decodes, each with its block, subaddress and key image, spent at b if and only if the key image lands in b) if and only if every output that an assignment repaired was spent in its own block; without assignments that holds, and without resyncs the range ends at the cursor; so the chunking does not matter |
| Runs.RowsRefineLedger | full-service/src/db/assigned_subaddress.rs:350-360 | The same equivalence in one reachable state |
| Runs.RowUpToRepair | full-service/src/db/assigned_subaddress.rs:350-360 | Every scanned output has the row the ledger dictates, except that a repaired one calls its own block the spent one |
| Runs.SeenIsCursor | full-service/src/service/sync.rs:380-381 | After any admissible run without resyncs of the account, the highest block it has scanned up to is its cursor |
| Runs.JoiningAccount | full-service/src/db/account.rs:549-613 | An account can join at any moment of another account's admissible run with every invariant, unless an earlier removal left a spent output of it behind |
| Runs.RunKeepsLinks | full-service/src/db/transaction_log.rs:547-743 | After every admissible run each link joins a log to a txo of the log's account |
| Runs.RunKeepsCoins | full-service/src/db/transaction_log.rs:547-820 | After every admissible run in which the inputs of pending logs land together, the inputs of finalised logs are spent |
| Runs.RunConserves | full-service/src/service/balance.rs:362-447 | After such a run the five lists partition the txos if and only if no live coin has both a pending log and a failed or unsubmitted one |
| Reimport.ReimportedRows | full-service/src/db/account.rs:549-613 | With such leftovers, after creation and scanning to the tip, every output has the row the ledger dictates, except that one left behind keeps the spent block it was left with |
| VerdictRuns.SubmittedVerdict | full-service/src/db/transaction_log.rs:677-820 | From the submission of a proposal on, after any admissible run, its log is Failed if and only if it has lapsed, and Succeeded if and only if it has not and a key image of the proposal has landed and been scanned |
| VerdictRuns.VerdictIff | full-service/src/db/transaction_log.rs:778-820 | The log is Failed if and only if it has lapsed (some chunk passed the tombstone of the undecided log, and it was another account's or ended before any then unspent input had landed), and Succeeded if and only if it has not and such an input has landed and been scanned; whatever else lands, and even if it is signed again |
| VerdictRuns.CorrectVerdict | full-service/src/service/sync.rs:366-381 | From any moment when a log is pending, over any admissible run: once lapsed the log is failed for good; else it is finalised at exactly the first landing of an input that was then unspent, once that block is scanned; else it is undecided; without resyncs what is scanned is what lies below the cursor |
| VerdictRuns.LateLogNeverSucceeds | full-service/src/db/transaction_log.rs:691-695 | A log recorded as submitted when all its inputs were already spent never succeeds over any admissible run, and fails if and only if some account's chunk passes its tombstone |
| VerdictRuns.SubmissionStarts | full-service/src/db/transaction_log.rs:697-735 | A successful submission of usable inputs leaves a pending log whose open key images are the proposal's, and every invariant the verdict needs |
| VerdictRuns.StepKeepsDecision | full-service/src/db/transaction_log.rs:778-820 | Every single step keeps the verdict right or makes the undecided log lapse |
| VerdictRuns.VerdictByLanding | full-service/src/db/transaction_log.rs:778-820 | The same by the first landing block b, before or after the tombstone: Failed if and only if a chunk that passed the tombstone was another account's or ended at or below b, Succeeded if and only if none did and b is scanned |
| VerdictRuns.VerdictInTime | full-service/src/db/transaction_log.rs:778-820 | For a tombstone ahead of the scan that stays and no landing after it: Succeeded if and only if an input landed and was scanned and no other account's chunk passed the tombstone first; Failed if and only if one did, or nothing landed and the scan has passed the tombstone |
| VerdictRuns.SubmissionNeedsUnspent | full-service/src/db/txo.rs:954-972 | A fresh submission of the account's own addressed inputs keeps its rows right if and only if every input was unspent |
| Verdicts.VerdictStarts | full-service/src/db/transaction_log.rs:396-406 | However many of its inputs are already spent and wherever its tombstone lies, a pending log has no open input landed below the scan and can be followed |
| Verdicts.ChunkHits | full-service/src/db/transaction_log.rs:778-802 | A chunk hits the log if and only if an open input's key image lands before its end, and the hit is the first landing |
| Verdicts.ChunkDecides | full-service/src/db/transaction_log.rs:778-820 | A chunk of its account makes an undecided log succeed if and only if an open input lands before the end of the chunk, even beyond the tombstone, and else fails it if and only if the chunk passes the tombstone |
| Verdicts.LateLandingDependsOnTheChunk | full-service/src/db/transaction_log.rs:778-820 | For a key image that lands after the tombstone the verdict depends on where the chunk ends: Failed before the landing, Succeeded beyond it |
| Verdicts.OtherScanFailsOrLeaves | full-service/src/db/transaction_log.rs:804-820 | Another account's chunk fails the undecided log if it passes the tombstone, and otherwise leaves it exactly as it was |
| Verdicts.ScanKeepsDecision | full-service/src/db/transaction_log.rs:778-820 | One chunk keeps the verdict right, even when the landing block and the tombstone are scanned together |
| TwoAccounts.OrderDecides | full-service/src/db/transaction_log.rs:804-820 | A concrete wallet of two accounts in which a transaction lands in time and is scanned: it is Failed when the other account syncs first and Succeeded when its own does |
| SharedInput.OtherCoinIsLost | full-service/src/db/transaction_log.rs:778-802 | A concrete wallet with two pending logs that share an input: after the scan the second has succeeded too, and its other coin is live and in none of the five lists |
| Lifecycle.RunEvolves | full-service/src/db/transaction_log.rs:396-406 | Over any run whatever, no log is both failed and finalised, finalised implies submitted, failed implies a tombstone; without removals Succeeded and Failed are final and no log is lost |
| Lifecycle.StepEvolves | full-service/src/db/transaction_log.rs:460-499 | Each step keeps that, one by one |
| Lifecycle.BuiltCannotFail | full-service/src/db/transaction_log.rs:804-820 | A log without a tombstone has not failed, and Succeeded implies that it was submitted |
| Lifecycle.StatusExactly | full-service/src/db/transaction_log.rs:396-406 | A log reads as pending if and only if a chunk may still finalise it, and as built if and only if it is neither decided nor submitted; failed and finalised come first |
| Logging.TransactionIdIsLeast | full-service/src/db/transaction_log.rs:47-61 | A proposal has an id if and only if it has payload, and the id is the least public key of the payload |
| Logging.TransactionIdIgnoresOrder | full-service/src/db/transaction_log.rs:47-61 | The log id does not depend on the order of the payload |
| Logging.RoutesConverge | full-service/src/db/transaction_log.rs:547-743 | Build-sign-submit, sign-submit and direct submit of one proposal fail together or end in the same tables: log row, input links, output rows and links, and key images |
| Logging.SignAfterBuild | full-service/src/db/transaction_log.rs:602-675 | Signing a built log leaves the tables that signing without building leaves |
| Logging.SubmitAfterSign | full-service/src/db/transaction_log.rs:677-743 | Submitting a signed log leaves the tables that submitting at once leaves |
| Logging.NewLogFromBuilt | full-service/src/db/transaction_log.rs:547-743 | Recording a proposal at once equals building it and then writing the key images and the log row |
| Logging.SignIsLinkThenUpdate | full-service/src/db/transaction_log.rs:650-661 | Writing each key image while linking its input equals linking all inputs first and writing all key images afterwards |
| Logging.AddOutputsCommutes | full-service/src/db/txo.rs:833-903 | Inserting new outputs and writing the key images of existing inputs commute |
| Recording.BuiltIffRecordable | full-service/src/db/transaction_log.rs:547-600 | Building succeeds if and only if the account exists, there is payload, the id is new, all inputs are known and distinct, and all outputs are new and distinct; it then adds exactly one log, the input links, and the output rows and links, which Recording.BuiltOutputs gives column by column |
| Recording.LinkInputsExact | full-service/src/db/transaction_log.rs:577-589 | Linking succeeds if and only if every input has a row and none is given twice, and adds exactly their links |
| Recording.AddOutputsExact | full-service/src/db/txo.rs:833-903 | Inserting outputs succeeds if and only if none has a row yet and none is given twice, and adds exactly their unowned rows and their links, as functions of the outputs |
| Recording.UpdateImagesAt | full-service/src/db/txo.rs:954-972 | Every input's row gets its key image and loses its spent block, and no other row changes |
| Recording.SubmittedAfresh | full-service/src/db/transaction_log.rs:697-735 | A submission without an earlier log adds one pending log with its links and clears the spent block of every input, even of one that was spent |
| Recording.BuiltOutputs | full-service/src/db/txo.rs:833-903 | After building, each output has an unowned, unreceived row with its value, token and keys, and a link with its recipient, marked as change exactly for change outputs |
| Recording.RecordedOutputs | full-service/src/db/txo.rs:833-903 | The same rows and links after signing and after submitting without an earlier log |
| Recording.SignedAfresh | full-service/src/db/transaction_log.rs:602-675 | Signing without an earlier log adds one log that is not submitted, with fee, tombstone, comment and bytes of the proposal, the input links and the key images |
| Recording.BuildErrors | full-service/src/db/transaction_log.rs:547-600 | Building reports a missing account if and only if there is none, else a missing payload if and only if there is none, and any other error is a broken constraint |
| Recording.RecordErrors | full-service/src/db/transaction_log.rs:602-743 | The same for signing and submitting |
| WalletDb.WalletDb.LinkInputs | full-service/src/db/transaction_log.rs:577-589 | The input loop stops at the first error with the links made so far |
| WalletDb.WalletDb.SignInputs | full-service/src/db/transaction_log.rs:650-661 | The signing loop stops at the first error with the rows written so far |
| WalletDb.WalletDb.UpdateImages | full-service/src/db/transaction_log.rs:621-624 | The key image loop writes every input that is in the table |
| WalletDb.WalletDb.AddOutputs | full-service/src/db/transaction_log.rs:591-597 | The output loop stops at the first error with the rows inserted so far |
| WalletDb.WalletDb.LogBuilt | full-service/src/db/transaction_log.rs:547-600 | The tables become what the building function on values gives, with the same error |
| WalletDb.WalletDb.LogSigned | full-service/src/db/transaction_log.rs:602-675 | The tables become what the signing function on values gives, for a new log and for a built one |
| WalletDb.WalletDb.LogSubmitted | full-service/src/db/transaction_log.rs:677-743 | The tables become what the submitting function on values gives, and rows written before an error stay |
| Coins.QueriesAgreeWhenReachable | full-service/src/db/txo.rs:1784-1826 | In every reachable state of a full account that union holds |
| Coins.BalancesConserve | full-service/src/service/balance.rs:362-447 | In every reachable state the unspent, pending, spent, unverified and orphaned lists of a full account partition its txos, and so add up to their value, if and only if no live coin has both a pending log and a failed or unsubmitted one, and none has only succeeded ones |
| Coins.SharedInputLosesACoin | full-service/src/db/transaction_log.rs:778-802 | When two pending logs share an input and it lands, the chunk also finalises the overtaken log, whose other input stays live with only succeeded logs |
| Coins.OvertakenCoinIsLost | full-service/src/db/txo.rs:1317-1462 | Such a coin is in none of the five lists and is not offered for spending |
| Coins.LiveCoinsAreListed | full-service/src/db/txo.rs:1678-1739 | Where pending logs land together, a live coin is free or in flight |
| Coins.ScanKeepsFinal | full-service/src/db/transaction_log.rs:778-802 | Where pending logs land together, a chunk finalises a log only together with marking all its inputs as spent |
| Queries.PartitionIffClassified | full-service/src/db/txo.rs:1317-1462 | For rows of the full-account shape the five lists partition the txos if and only if every live coin is free or in flight but not both |
| Queries.PartitionConserves | full-service/src/service/balance.rs:362-447 | A partition makes the five sums add up to the value of all txos listed |
| Queries.OverlapCountsTwice | full-service/src/db/txo.rs:1342-1361 | A coin with a failed or unsubmitted log and a pending one is listed as unspent and as pending, and is offered for spending |
| Queries.QueriesAgree | full-service/src/db/txo.rs:1784-1826 | The spendable query is the disjoint union of the unspent and unverified queries if and only if the key image, subaddress and spent columns of the free rows agree |
| Queries.NeitherFreeNorInFlight | full-service/src/db/txo.rs:1342-1361 | A coin is neither free nor in flight if and only if it has a log and all its logs have succeeded |
| Queries.PartitionIffSorted | full-service/src/db/txo.rs:1317-1462 | For scanned rows of a full or view-only account the five lists partition the txos if and only if every live coin is free or in flight but not both and no spent coin without a key image is free |
| Queries.QueriesExactly | full-service/src/db/txo.rs:1317-1826 | Which rows each of the six queries returns, in terms of the columns of the row and of the logs that use it |
| Queries.AddressQuery | full-service/src/db/txo.rs:1371-1379 | A query for an address returns exactly the rows of the account's query that have its index, and never an orphan |
| Balances.MaxSpendableIsCovered | full-service/src/service/balance.rs:429-446 | When max_spendable is positive, max_spendable plus the fee never exceeds unspent plus unverified |
| Balances.AddressesAddUp | full-service/src/service/balance.rs:362-447 | Summed over any set of indices, the address queries count every row of the account's query at one of them, once |
| Balances.AccountIsItsAddresses | full-service/src/service/balance.rs:362-447 | An account's sum is the sum over its assigned addresses plus the rows at none of them, of full and view-only accounts |
| Balances.AccountBalancesAreItsAddresses | full-service/src/service/balance.rs:362-447 | In every reachable state the unspent, pending, spent and unverified balances of a full account, and what it can spend, are the sums over its assigned addresses; orphans belong to none |
| WalletDb.WalletDb.SumQueryResult | full-service/src/service/balance.rs:352-354 | The sum of a query is the total of the unsigned values of its rows |
| WalletDb.WalletDb.GetBalanceInner | full-service/src/service/balance.rs:362-447 | Each of the five balances is the total of its query for the account and address asked for, and max_spendable the most that 16 spendable coins yield after the fee; only an unassigned address has none |
| WalletDb.WalletDb.GetWalletStatus | full-service/src/service/balance.rs:290-349 | Per token: an entry exists if and only if an account holds the token, the five sums range over the txos of all accounts, and max_spendable is that of the first listed account that holds it; its fee is the token's, or 0 without one; the synced block is the least of the network's height and the accounts' cursors, less one but not below 0; the accounts are listed in order |
| WalletDb.WalletDb.AddAccountBalances | full-service/src/service/balance.rs:303-330 | The inner loop brings the entries of an account's tokens up to date and leaves the others |
| WalletStatus.MergeEntry | full-service/src/service/balance.rs:319-329 | Merging the balance of one more account adds exactly the totals of its own queries |
| WalletStatus.WalletConserves | full-service/src/service/balance.rs:303-339 | When the five lists partition every account's txos, the merged sums add up to the value of all txos that the accounts own |
| WalletStatus.FirstHolderIsFirst | full-service/src/service/balance.rs:319-329 | The account whose max_spendable is kept is the first listed one that holds the token |
| Addresses.StartsGapFree | full-service/src/db/account.rs:549-613 | Creation without fog succeeds if and only if the requested next index leaves the change index free; the non-negative indices are then exactly 0 to max(2, n) - 1, capped at 2^63, the change index is stored negative, and the account row and nothing else is new |
| Addresses.NextIsFirstUnused | full-service/src/db/account.rs:924-935 | The next index is the first unused one, since the reserved change index wraps negative and never wins the maximum |
| Addresses.AssignsFirstUnused | full-service/src/db/assigned_subaddress.rs:266-379 | An assignment succeeds if and only if the account takes subaddresses and every spent orphan is found in the ledger; it then adds the first unused index only; a missing account, a fog account and a missing output are each their own error |
| Addresses.SignBitStopsAssignment | full-service/src/db/account.rs:924-935 | Past 2^63 the next index wraps negative: it is handed out at most once and every later assignment fails |
| Addresses.InsertAllAdds | full-service/src/db/account.rs:594-610 | Inserting the first subaddresses succeeds if and only if no index repeats |
| Addresses.AssignKeepsGapFree | full-service/src/db/assigned_subaddress.rs:266-379 | A successful assignment extends the indices by one, or past 2^63 leaves the non-negative ones as they were |
| Addresses.AssignedRows | full-service/src/db/assigned_subaddress.rs:308-372 | After a successful assignment exactly the account's rows without subaddress and key image that were sent to the new address change: they get its index, and for a full account the key image and, if that has landed, the first block with the output as spent block; for a view-only account nothing else |
| Addresses.FogStartsWithTwo | full-service/src/db/account.rs:594-597 | Creating a fog account always succeeds, with exactly the main and the change address |
| AddressRuns.RunKeepsGapFree | full-service/src/db/assigned_subaddress.rs:266-379 | After any run that does not remove the account, full or view-only, and whatever is recorded in it, the non-negative indices are exactly 0 to m + k - 1, where k counts the successful assignments of the run, capped at 2^63 |
| ViewOnly.ViewOnlyAssignCommutes | full-service/src/db/assigned_subaddress.rs:282-313 | For a view-only account, assigning an address before scanning a chunk or after it gives the same database, whatever the scan matches, and both orders allow the same matches |
| ViewOnly.ViewOnlyAssignCommutesToTip | full-service/src/db/assigned_subaddress.rs:282-313 | The same over any number of chunks |
| WalletDb.WalletDb.CreateAccount | full-service/src/db/account.rs:549-613 | The account row and its first subaddresses become what creation on values gives, for full and view-only accounts, with the same errors; the account exists already if and only if that is the error, and any other is a broken constraint |
| WalletDb.WalletDb.CreateNextForAccount | full-service/src/db/assigned_subaddress.rs:266-379 | Assignment with repair takes the tables to what the function on values gives, or leaves them as they were on an error |
| WalletDb.WalletDb.NextSubaddressIndex | full-service/src/db/account.rs:924-935 | The maximum loop returns the highest stored index of the account plus one, or nothing without subaddresses |
| WalletDb.WalletDb.RepairOrphan | full-service/src/db/assigned_subaddress.rs:341-372 | One explained orphan gets its subaddress and, for a full account, its key image and spent block; a missing output is an error (columns: Addresses.AssignedRows) |
| WalletDb.WalletDb.RepairOrphans | full-service/src/db/assigned_subaddress.rs:324-373 | The repair loop changes exactly the explained orphans, in whatever order the query returns them |
| Resync.ResyncRestores | full-service/src/service/account.rs:626-632 | From any contents of the txo table, resyncing to the tip restores value, token, keys, subaddress, key image and received block of every output of a full account, and never unspends a txo |
| Resync.ResyncIsIdempotent | full-service/src/service/account.rs:626-632 | A correct table comes out of a resync exactly as it went in |
| Resync.RescanChangesNothing | full-service/src/db/txo.rs:905-939 | Scanning already scanned blocks again changes no row of a full account |
| Resync.ViewOnlyRescanCountsTwice | full-service/src/db/txo.rs:905-939 | Receiving again for a view-only account drops the key image of a spent txo, which then counts as spent and as unverified |
| Resync.ViewOnlyRescanHarmlessIff | full-service/src/db/txo.rs:905-939 | Rescanning known rows of a view-only account changes no txo if and only if no output of the chunk has a key image on record and no watched row lands in it |
| Resync.ViewOnlyPartition | full-service/src/db/txo.rs:1397-1462 | Once key images are dropped, the five lists partition if and only if every live coin is free or in flight but not both and no spent coin is free |
| Removal.EveryStatementKeepsForeignKeys | full-service/src/db/account.rs:877-895 | After each single statement of the removal every foreign key is valid and nothing is left of what the statement deletes |
| Removal.RemovalIsComplete | full-service/src/db/account.rs:877-895 | Afterwards nothing refers to the account, every txo has an owner or a log reference, no memo outlives its txo, the rows, logs and txos of other accounts are unchanged, and a txo of the removed account that another account's log uses is kept with its owner cleared and nothing else changed |
| Removal.StageKeepsTxos | full-service/src/db/txo.rs:1964-2011 | At every stage a txo owned by another account, or used by another account's log, is kept |
| Integrity.StepKeepsForeignKeys | full-service/src/db/wallet_db.rs:131-147 | No step of the wallet breaks a foreign key, even when recording a submission stops half way |
| WalletDb.WalletDb.RemoveAccount | full-service/src/db/account.rs:877-895 | The nine statements in order take the tables to what the removal function gives; a missing account is an error |
| WalletDb.WalletDb.DeleteInputs | full-service/src/db/transaction_log.rs:745-776 | The loop deletes exactly the input links of the account's logs |
| WalletDb.WalletDb.DeleteOutputs | full-service/src/db/transaction_log.rs:745-776 | The loop deletes exactly the output links of the account's logs |
| WalletDb.WalletDb.DeleteAllLogsForAccount | full-service/src/db/transaction_log.rs:745-776 | Links first, then logs: nothing of the account's logs is left |
| Mixins.SampleMixins | full-service/src/service/ledger.rs:469-509 | Both size errors are told apart exactly; a sample has exactly the requested number of distinct in-range indices, none excluded; running out of draws means that an allowed index was never drawn |
| Mixins.SomeIndexIsLeft | full-service/src/service/ledger.rs:489-495 | Once the size checks pass, every state of the loop still has an unsampled allowed index, for any excluded list |
| Tokens.ConversionRoundTrip | python/mobilecoin/token.py:13-30 | Converting to display units and back is the identity if and only if the amount has at most 28 digits, not counting trailing zeros |
| Tokens.ShortAmountsRoundTrip | python/mobilecoin/token.py:13-30 | Every amount of at most 28 digits, negative ones included, makes the round trip |
| Tokens.LongAmountLosesADigit | python/mobilecoin/token.py:13-30 | 10^28 + 1 does not make the round trip |
| Tokens.DeconvertExact | python/mobilecoin/token.py:25-30 | Any decimal that is exactly n / 10^decimals, in whatever notation, becomes n |
| Tokens.FormatRoundTrip | python/mobilecoin/token.py:86-103 | A formatted amount reads back as itself if and only if 28 digits can represent it and either the extra precision is on or no digit is set beyond the suggested places; before the space stands the display value rounded to the precision, after it the short code |
| Tokens.FitsIffPrecise | python/mobilecoin/token.py:94-97 | The precision taken from the normalised exponent is the least at which no digit is lost |
| Tokens.FixedPointRoundTrip | python/mobilecoin/token.py:99-103 | The printed fixed-point text reads back as exactly the sign, digits and places that were printed |
| Tokens.HalfEvenIsNearest | python/mobilecoin/token.py:30-30 | Rounding gives the one number of units within half a unit, ties going to the even one |
| Tokens.RescaleIsNearest | python/mobilecoin/token.py:99-103 | Printing to p places takes the nearest multiple of 10^-p, ties to even, and is exact when there are no more digits |
| Tokens.DeconvertIsNearest | python/mobilecoin/token.py:25-30 | Every display value of up to 28 digits in storage units becomes the nearest number of them, ties to even, with its sign |
| Tokens.ConvertIsNearest | python/mobilecoin/token.py:16-23 | Beyond 28 digits the display value drops as few digits as possible and is the nearest to the amount, ties to even |
| Tokens.PrecisionIsLeast | python/mobilecoin/token.py:91-97 | Without the extra precision the suggested places are printed, with it the fewest from there on at which no digit is lost |
| SqlText.EscapeRoundTrip | full-service/src/db/wallet_db.rs:243-248 | Reading the escaped literal by the doubled-quote rule consumes exactly the literal, stops at no inner quote and yields the original string |
| SqlText.QuoteAfterLiteralIsAbsorbed | full-service/src/db/wallet_db.rs:243-248 | The literal must not be followed by another quote, which would be read as part of it |
| SqlText.EscapeIsInjective | full-service/src/db/wallet_db.rs:243-248 | Different strings never escape to the same literal |

## Left out

- WalletDb.WalletDb.SyncTurn: when two watched rows share a key image, which one is marked depends on the order of a query, and the contract then fixes only the cursor. `Refinement.ReceivedUniqueImages` rules this out for the full account under study; key images that clients write for view-only accounts are not constrained.
- WalletDb.WalletDb.SyncAllAccounts: has the same exception, at each account's turn; the webhook map is not modelled.
- WalletDb.WalletDb.CreateReceived: has no memo rows and no memo decoding error.
- WalletDb.WalletDb.GetBalanceInner: has no secreted balance; `list_secreted` is filtered neither by token nor by address.
- WalletDb.WalletDb.GetWalletStatus: has no secreted sum, and takes the network height, the fees and the order of the accounts as parameters.
- Mixins.SampleMixins: takes the draws of the random generator as a parameter, so that the loop ends is stated as: some allowed index was never drawn; probabilities and membership proofs are not modelled.
- Tokens.ConversionRoundTrip: models the number that a decimal quotient denotes, not which of its equal notations Python keeps, and no exponent overflow.
- Reimport.ReimportedRows: follows the account to the tip of one ledger, without other steps in between.
- `sync_account` (`full-service/src/service/account.rs:726-753`), which writes the key image and spent block of any txo by public key, without an account filter: it is not a step of the runs.
- Memo interpretation on receipt, and the error of a memo that cannot be decoded; memo tables are modelled for deletion only.
- `Txo::status`, pagination, block-index filters, names, comments of accounts, fog hints, shared secrets and confirmation columns.
- Block indices at or above 2^63, and overflow of 128-bit sums.
- `value_for_token_id` and the other value maps of a log.
- Key derivation, view-key decoding, key images, address encoding and proofs: treated as ideal data.
- Diesel, SQLite, migrations, connection pools and encryption: only table contents and transactions matter here.
- Threads, retries, sleeps and webhooks; validator sync; JSON-RPC, configuration, mirror, hardware wallet, gift codes, receipts, and the Python clients other than amounts.
