# A model of the wallet's chain scanner and of its deterministic clock

The repository scans a block chain for an exchange wallet. A *scanner* fetches
confirmed block headers from a node it does not trust, stores them, sorts the
transactions of each block by business and hands them over. A *finder* applies
them to the balances of each business and counts confirmations. When a header
does not link to the one before, the scanner raises a flag, and a *fallback*
worker takes orphaned blocks off again and reverses what they did. A *notifier*
reports confirmed deposits until the business acknowledges them. Beside it
stands a *deterministic clock* with timers and tickers.

The model has one module per source file or component. Each object that the
code updates in place is a class with the code's fields, and each of its methods
is proved equal to a function on values. The workers' transactions go through
the table objects. What such a function does is stated once more without it, row
by row or event by event (`Records.PassExactly`, `Fallback.WalkExactly`,
`Finder.ShareMoves`, `Notifier.RoundExactly`, `Clock.TickerFate` and others of
that kind), and the theorems about protocols and whole runs are proved about it.

| module | models |
|---|---|
| `Prelude`, `Node` | shared types; headers, chains, what a node may answer |
| `BigInt`, `BatchBlock` | window arithmetic; the header cursor |
| `Blocks`, `Balances`, `Records`, `Database` | the tables and their operations |
| `Classify`, `Synchronizer` | sorting transactions; the scanner's tick |
| `Retry`, `Finder`, `Fallback`, `Notifier` | bounded retries; the three workers |
| `Safety`, `Emission`, `Recovery`, `Businesses`, `Convergence` | theorems over runs of ticks, passes and restarts |
| `Canonical` | recovery, catching up, emission and the finder put together |
| `Clock`, `AdvancingClock` | the clock and its one-shots and tickers |

**Answers of the outside world are parameters.** A node's answers during one call
are a function of the requested height (no call asks twice for one height), so a
node may change its mind between any two requests. Reads, inserts, retried
transactions, cancelled contexts and HTTP answers are parameters in the same way,
and every theorem is for all of them. A request answered with an error code
returns a nil header without an error; where the code then dereferences it, the
model ends the process there (`Panicked`, `WalkPanicked`).

**Premises of the run theorems**, each an explicit `requires`
(`Canonical.PremisesAreMet` gives an instance of those of the largest ones):

- The node answers a request for a positive height with a header of that height
  (`RightNumbers`), and heights fit the int64 they travel in. Hashes and parent
  hashes are arbitrary.
- A tick does not run between the raising of the flag and the fallback pass
  (`Scheduled`). The code has no lock for this. `Safety.PassSafeExactly` says
  exactly which flags do harm when it is broken.
- The cursor is known. It is nil after an error code at start-up, after a failed
  query at the end of a pass, and after a pass that empties the table.
  `Safety.TickSafeExactly` says exactly when a tick from a nil cursor is safe.
- Recovery: the node has settled on one chain whose head is at least depth + 1
  above the stored tip, the database can be reached, equal hashes mean equal
  headers, and one business is listed with at most one deposit and one flow row
  at each height to be rolled back. Withdrawals and internal transfers are filed
  under block number 1 (services/handler.go:482, 510). The theorems say exactly
  what happens otherwise: `Businesses.TipTakenExactly` for any list of
  businesses, `Businesses.RecoveryClearsExactly` for several rows at a height, and
  `Recovery.RecoversExactly` itself for a backup table that already holds a row.
- Catching up (`Convergence`): no read and no store fails, the highest kept block is
  on the node's chain, and the block table's constraints admit that chain.
- Block reads: an error code for a block's transactions is not a failure to the
  code (rpcclient/client.go:86-90). The block is stored as empty and not read
  again. `Emission.SentAsOnChainExactly` says exactly when that loses something,
  and `Emission.UnreportedBlockLosesDeposit` shows a deposit that it does lose.
- The finder gets through the batches (`Canonical.Final`). `Finder.GoesOnExactly`
  and `Finder.AppliedExactly` say exactly when it does, and
  `Finder.OutsideFundsStop` shows how it stops for good.
- Balances: rows hold no lock balance, as every row is created
  (`Balances.LockDoubles` says why), and where entries are undone nothing moves
  tokens from a row to itself, as `Finder.ContributionIsGenuine` proves of emitted
  transactions; `Balances.UndoInReverse` says exactly what such a transfer does.
- Address lookups: each block is classified by the addresses registered by then,
  less the lookups that meet an error or come before the registration. Addresses
  are only ever added and keep their kind. `Emission.SentAsRegisteredExactly` says
  exactly when a missed lookup matters, and `Emission.MissedLookupLosesDeposit`
  shows one that does.
- Notification: deposits have distinct hashes and are not rolled back meanwhile
  (`Notifier.SkipsExactly` says, for any rows, exactly what a shared hash does,
  as when a rolled-back deposit is mined again).

**Where the code differs from its documentation, the model follows the code.**
DEVSTEPS.md:727-736 describes a fallback that finds the whole orphaned range in
one walk and reverses all its transactions. In the code the walk compares the
node's headers with each other, so one pass removes one block; the balance
rollback returns after the first entry (database/balances.go:418-433); and the
marking takes one row per height (database/deposit.go:153-169). Recovery comes
from repeating detection and rollback, which is what `Recovery` proves.

## Model

| member | source | states |
|---|---|---|
| BigInt.ConversionsExact | common/bigint/bigint.go:13-22 | the conversion to uint64 forgets the sign and everything above 64 bits, and the conversion to int64 reads the top half as negative numbers |
| BigInt.ClampExact | common/bigint/bigint.go:13-22 | for every interval and every 64-bit size: the clamped end is min(end, start + size - 1) exactly when the interval is shorter than `size`, or size - 1 fits an int64 and the 64-bit count does not wrap below it |
| BigInt.WindowFits | rpcclient/batch_block.go:85-96 | for heights that fit an int64 and a positive size: the window is min(end, start + size - 1) and the number of headers to fetch is min(gap + 1, size), with no wrap-around |
| BatchBlock.BatchBlock.NextHeaders | rpcclient/batch_block.go:55-131 | the loop over requests, the three early exits and the cursor, head and error updates amount to the function `Next` of the old cursor and the answers; the cursor moves only by a non-empty success |
| BatchBlock.CollectLinks | rpcclient/batch_block.go:94-119 | whatever the node answers, collected headers are consecutive, hash-linked to each other and to the previous header, as many as asked for, and each is the answer given for its height; a reorganisation names an answered header inside the window |
| BatchBlock.CollectExactly | rpcclient/batch_block.go:94-119 | the first answer that does not link decides: with none, all headers as answered; otherwise that answer is the failure, the end of the process, or the header that reveals the reorganisation |
| BatchBlock.CollectPanics | rpcclient/batch_block.go:94-104 | the process ends if and only if the first answer that does not link is an error code |
| BatchBlock.NextExactly | rpcclient/batch_block.go:55-92 | from a known cursor: which head answers fail, when nothing is asked for, when the cursor is ahead of the provider, and otherwise from which height and for how many headers |
| BatchBlock.NextHeadersContract | rpcclient/batch_block.go:55-131 | from any known cursor and against any node: a result links onto the cursor, has min(latest - depth - cursor, maxSize) entries, ends at or below latest - depth and at the new cursor; every reorganisation, error or empty result leaves the cursor alone |
| BatchBlock.CollectChain | rpcclient/batch_block.go:94-119 | against a node that holds one chain, the collected headers are exactly that stretch of it |
| BatchBlock.CatchesUp | rpcclient/batch_block.go:66-127 | on a fixed chain the cursor after k calls is at min(latest - depth, from + k * maxSize): it arrives in ceil(gap / maxSize) calls and then rests |
| Blocks.BlocksTable.StoreBlocks | database/blocks.go:35-38 | all rows are added, or none when the database is down or a key, height, hash or parent hash clashes or a column is out of range |
| Blocks.BlocksTable.DeleteBlocksByNumber | database/blocks.go:71-82 | deletes exactly the rows with the listed numbers, one by one |
| Blocks.InsertExactly | database/blocks.go:35-38 | a batch is stored if and only if heights and timestamps fit their columns and no hash, parent hash or height occurs twice in it or stands in the table already |
| Blocks.DeletionExactly | database/blocks.go:71-82 | a deletion leaves exactly the rows whose numbers are not listed, in the order of the table, whatever the table |
| Blocks.LatestIsHighest | database/blocks.go:45-55 | the latest block is a stored row and no stored row has a greater number |
| Blocks.LatestOfLinked | database/blocks.go:45-55 | in a linked table the latest block is the last row |
| Blocks.RowAtLinked | database/blocks.go:58-68 | in a linked table a query by number finds the row as many places after the first as the number says, and nothing outside |
| Blocks.WithoutTop | database/blocks.go:71-82 | deleting the top rows of a linked table, highest first, leaves exactly the rows below |
| Classify.MatchBlock | worker/synchronizer.go:206-267 | the loop with its two lookups for each transaction, its flags and its chain of cases computes the matched transactions of one block for one business, whichever lookups are missed |
| Classify.AddressExist | database/address.go:47-60 | answers with the registered kind, and for an unknown address, as for a database error, with "not registered, user" |
| Classify.ClassifyBatch | worker/synchronizer.go:175-282 | the nested loops that fill the business map end in the map that assigns to each business its in-order contribution by the answered lookups and its last contributing height, keyed by exactly the businesses with a non-empty contribution; a failed block read or business query ends in nothing |
| Classify.ReadsExactly | worker/synchronizer.go:179-202 | reading fails if and only if the transactions or the business list of some block cannot be read; otherwise each block comes with its own list, empty after an error code, its own businesses and its own lookups |
| Classify.MatchedInOrder | worker/synchronizer.go:206-267 | a block's share in full: the transactions for which one of the five cases holds by their own two lookups, each once and in the order of the block, with hash, sides, token and contract wallet as reported |
| Classify.MatchedExactly | worker/synchronizer.go:206-267 | a transaction is matched if and only if one of the five cases holds for it by its answered lookups, and it carries that case |
| Classify.CasesExclude | worker/synchronizer.go:232-263 | each type is given exactly to its pair of answered address kinds |
| Classify.MatchedIsGenuine | worker/synchronizer.go:220-266 | a matched transaction is of its block and business, and no collection or transfer between hot and cold wallet has the same address on both sides, whichever lookups are missed |
| Classify.OthersDoNotMatter | worker/synchronizer.go:202-281 | a business's entry does not depend on any other business's addresses, lookups or listing |
| Classify.ContributionConcat | worker/synchronizer.go:268-280 | classifying two batches one after the other gives the same transactions as classifying them at once |
| Classify.HeightOfLastContributor | worker/synchronizer.go:269-279 | the batch height is that of a contributing block after which no block contributes |
| Classify.SentAsDueExactly | database/address.go:47-60 | over blocks at different heights, whatever transactions they list and however often, a business gets what its registered addresses call for in the blocks as read if and only if every transaction has, by its answered lookups, the type its registered addresses give it |
| Classify.SentOfChainExactly | worker/synchronizer.go:189-211 | over blocks at different heights, each read with the chain's transactions or, after an error code, as empty, a business gets what the chain and its registered addresses call for if and only if each block came with its list, its business listed and every type right, or calls for nothing |
| Classify.RightTypesSuffice | worker/synchronizer.go:206-267 | with every type right a business gets exactly what its registered addresses call for, whatever the blocks |
| Synchronizer.Synchronizer.constructor | worker/synchronizer.go:89-99 | a scanner starts with no waiting headers, the flag down and the cursor given |
| Synchronizer.Synchronizer.NewSynchronizer | worker/synchronizer.go:57-100 | start-up fails exactly when the query for the highest block fails, or the table is empty and the node request fails; otherwise the cursor is the highest stored block, else the configured height, else the head |
| Synchronizer.BootsExactly | worker/synchronizer.go:57-87 | a start takes the highest stored block, and from an empty table the node's header at the configured height, or its head when none is configured; it fails, or starts without a cursor, exactly when the query or that answer does |
| Synchronizer.FetchesFromStart | worker/synchronizer.go:57-87 | so the first fetch from an empty table begins right above the configured height |
| Synchronizer.Synchronizer.Tick | worker/synchronizer.go:125-162 | one tick changes cursor, buffer, flag, block table and channel as `Ticked` says, for every combination of node, read and store failures, and ends the process exactly when a header request is answered with an error code |
| Synchronizer.Synchronizer.ProcessBatch | worker/synchronizer.go:169-296 | classify, store, then emit: rows are stored and the map is sent only when every read and the insert succeed, and the map is sent only when it is not empty |
| Synchronizer.StoresExactly | worker/synchronizer.go:169-296 | waiting blocks are stored if and only if every read succeeds, the database answers and the table admits them |
| Synchronizer.FlagExactly | worker/synchronizer.go:131-143 | a tick raises the flag exactly for a reorganisation met with nothing waiting, and leaves a raised flag alone |
| Synchronizer.PanicsExactly | rpcclient/batch_block.go:94-112 | from a known cursor a tick ends the process if and only if nothing waits and, among the heights asked for, the first that does not link is answered with an error code |
| Safety.TickIsSafe | worker/synchronizer.go:125-162 | from a safe state with the flag down and a known cursor, a tick against any node ends in a safe state |
| Safety.WalkTakesTop | worker/fallback.go:189-238 | a walk that starts above the tip and succeeds takes the top rows, highest first, and starts right above the tip |
| Safety.PassIsSafe | worker/fallback.go:62-90 | a pass against any node keeps the state safe, whatever it removes and whichever query fails |
| Safety.RestartIsSafe | worker/synchronizer.go:57-100 | a restart at any point leaves a safe state |
| Safety.RunsAreSafe | worker/synchronizer.go:125-162 | stored-chain safety: over every run of ticks, passes, restarts and ledger changes in which ticks wait for the flag and a known cursor, the stored blocks stay contiguous and hash-linked, an empty buffer means cursor = tip, a waiting buffer links onto the tip and ends at the cursor |
| Safety.TickSafeExactly | rpcclient/batch_block.go:85-111 | a tick with nothing waiting is safe against every node if and only if the cursor is known, or the table is empty and one block is fetched at a time (a nil cursor asks for height 0, which means the head) |
| Safety.PassSafeExactly | worker/fallback.go:66-82 | a pass keeps the stored chain linked against every node if and only if the block below the flagged header is not strictly inside the stored chain, or the backup table refuses it, which is why the flag must be handled before more blocks are stored |
| Safety.RefusedPassKeeps | worker/fallback.go:129-136 | a pass whose first row the backup table refuses changes no stored block, whatever the walk |
| Emission.CommitEmits | worker/synchronizer.go:283-294 | a stored batch is sent as one map, with an entry for exactly the businesses it concerns, and as nothing when it concerns none |
| Emission.TickDelivers | worker/synchronizer.go:125-162 | one tick stores fetched blocks once and in order, or leaves them waiting, and sends each business exactly the classification of what it stored by the lookups answered in that attempt |
| Emission.ExactlyOnce | worker/synchronizer.go:125-296 | exactly-once emission: over every run of ticks, with header requests, block reads, business queries and stores failing at any time, the stored blocks are the fetched ones in order, each once, the rest waits in the buffer, and every business was sent exactly the classification of the stored blocks as read, by the lookups answered in the attempt that stored them; a block whose transactions are answered with an error code is read as empty |
| Emission.SentAsRegisteredExactly | worker/synchronizer.go:210-212 | over every run of ticks, what a business was sent is what its registered addresses call for in the blocks as read if and only if every transaction of every stored block got the type its registered addresses give it |
| Emission.SentAsOnChainExactly | rpcclient/client.go:86-90 | over every run of ticks against a node that reports the chain's transactions of a block or an error code for them, what a business was sent is what the chain calls for in the stored blocks if and only if each was classified with its transactions and right types, or calls for nothing |
| Emission.UnreportedBlockLosesDeposit | rpcclient/client.go:86-90 | a concrete tick in which an error code for a block's transactions loses a deposit to a registered address: the block is stored as empty, nothing is sent and nothing waits |
| Emission.MissedLookupLosesDeposit | database/address.go:53-58 | a concrete tick in which a failed lookup loses a deposit: the block is stored, nothing is sent and nothing waits |
| Emission.MissedLookupMistypes | database/address.go:53-58 | a failed lookup turns any transfer from the hot to the cold wallet into a withdrawal |
| Fallback.Fallback.FindFallbackEntry | worker/fallback.go:189-238 | the unbounded walk terminates for every sequence of answers with right numbers, and returns the rows passed and the header where it stopped, a failure, or the nil dereference |
| Fallback.Fallback.HandleFallback | worker/fallback.go:93-186 | backup, deletion, marking of deposits, withdrawals, internal transfers and flow rows, and balance rollback happen together or not at all, within ten attempts |
| Fallback.Fallback.PoolTransactions | worker/fallback.go:106-124 | the live flow rows of all listed businesses in the range end up in one list, business by business |
| Fallback.Fallback.RollBackBusiness | worker/fallback.go:147-172 | the five table operations for one business amount to `RollBackOne` |
| Fallback.Fallback.RollBackAll | worker/fallback.go:128-177 | the steps of the transaction amount to `RollBack`: backup, deletion and every business in turn, or nothing when one step fails |
| Fallback.Fallback.Pass | worker/fallback.go:66-82 | one pass handles the flagged header, puts the cursor on the highest stored block whatever came of it, and lowers the flag |
| Fallback.WalkRange | worker/fallback.go:196-237 | on success the rows are the stored rows of consecutive heights from just below the flagged header down to the fallback header, each link above it failed and the one at it holds, and the fallback header is the node's own |
| Fallback.WalkExactly | worker/fallback.go:189-238 | a walk of any length succeeds with given rows and fallback header if and only if every height between was answered and stored, every link above the last failed and the last one holds |
| Fallback.WalkPanicsExactly | worker/fallback.go:214-231 | the walk ends the process if and only if, below a stretch of answered, stored heights that do not link, a stored height is answered with an error code |
| Fallback.WalkOnChain | worker/fallback.go:196-237 | when the flagged header and all answers come from one chain the walk succeeds after a single step, taking one row, if that row is stored, and fails otherwise |
| Fallback.PassCommits | worker/fallback.go:62-90 | a pass whose walk succeeds and that reaches the database commits the rollback transaction exactly when it can hold; the cursor goes to the highest stored block, or is lost with that query |
| Fallback.PassFails | worker/fallback.go:62-114 | a pass whose walk fails, that cannot read the businesses or their flow rows, or does not reach the database changes no table and lowers the flag all the same |
| Fallback.PooledConcat | worker/fallback.go:106-124 | the pooled rows of several businesses follow each other in the order of the business list |
| Fallback.PooledFirst | worker/fallback.go:106-124 | the first pooled entry is that of the first live row in the range of the first business that has one |
| Fallback.PooledNone | worker/fallback.go:106-124 | nothing is pooled if and only if no listed business has a live row in the range |
| Fallback.RollBackOneMarks | worker/fallback.go:146-173 | deposits, withdrawals and flow rows are marked over the range, internal transfers over all of it but the last height, and one entry is undone |
| Balances.BalancesTable.QueryWalletBalanceByTokenAndAddress | database/balances.go:70-122 | returns the first row of an address and token, appending a zero row when there is none |
| Balances.BalancesTable.UpdateAndSaveBalance | database/balances.go:297-350 | saves the new balance, adds the passed lock balance to the stored one, ignores a missing row and fails on a range violation |
| Balances.BalancesTable.Handle | database/balances.go:196-294 | the five forward handlers, and with a negated amount the five rollback handlers, update the rows as `Post` says |
| Balances.BalancesTable.UpdateOrCreate | database/balances.go:173-193 | all entries in order, or the table as it was |
| Balances.BalancesTable.UpdateFallBackBalance | database/balances.go:413-436 | undoes the first entry of the list only |
| Balances.AdjustMeans | database/balances.go:213-231 | on unlocked rows an adjustment succeeds exactly when the new balance is in [0, 2^256) and changes that cell alone |
| Balances.AdjustFails | database/balances.go:297-350 | on any rows an adjustment fails exactly when the new balance or the doubled lock balance leaves its column |
| Balances.FindsFirst | database/balances.go:70-88 | the row found is the first of the address and token |
| Balances.PostKeepsRows | database/balances.go:70-122 | a handler keeps every row's place, address, token and wallet, and adds rows only for sides that had none, under the wallet of that side |
| Balances.PostMeans | database/balances.go:213-294 | a successful handler changes every cell by the effect of its transaction type and no other cell |
| Balances.PostSucceeds | database/balances.go:213-294 | a handler succeeds if and only if its type is known and its cells stay in range, the outgoing one first |
| Balances.ApplyAllExactly | database/balances.go:173-193 | a list of entries is applied if and only if every entry is of a known type and its cells stay in range by the sums of the effects before it |
| Balances.UndoOne | database/balances.go:439-533 | undoing an entry right after it was applied restores every balance, and it succeeds unless the entry is a transfer from a row to itself whose balance cannot hold the amount twice |
| Balances.UndoInReverse | database/balances.go:439-533 | for every list `UpdateOrCreate` accepts from unlocked rows, the rollback handlers from last to first all succeed if and only if each transfer from a row to itself leaves room for its amount once more at its place; and then they restore every balance |
| Balances.UndoIsTotal | database/balances.go:439-533 | so undoing in reverse order is total for lists without such transfers |
| Balances.Conservation | database/balances.go:173-294 | a successful list changes the sum of all balances of a token by its deposits minus its withdrawals, for repeated addresses and any lock balances |
| Balances.ApplyAllSame | database/balances.go:173-193 | tables with equal balances accept the same lists and end with equal balances |
| Balances.LockDoubles | database/balances.go:322-330 | an update and its rollback return a row to itself if and only if it holds no lock balance |
| Retry.Do | common/retry/operation.go:36-59 | the counted loop returns the outcome of the attempts in order, stopping at a success or a cancelled context |
| Retry.SucceedsExactly | common/retry/operation.go:36-59 | it succeeds if and only if some attempt succeeds before the limit, after failures only and with the context open throughout, and then with that attempt's value |
| Retry.EndsExactly | common/retry/operation.go:36-59 | without a success the call is cancelled exactly when the context was over before an attempt below the limit, all before it having failed; otherwise the limit was reached |
| Retry.OutageSurvived | worker/finder.go:231-233 | with the context open, an outage is survived if and only if it is over by the tenth attempt |
| Retry.TransactionRunsOnce | database/db.go:70-88 | a retried transaction takes effect once, if and only if it can hold and the database is reached within the attempts |
| Finder.Finder.HandleOneBusiness | worker/finder.go:163-283 | resolve every transaction, then persist all effects of one business in one retried transaction, or none |
| Finder.Finder.BuildLists | worker/finder.go:163-232 | one pass over the transactions builds the balance entries, deposits, withdrawals, internal transfers and flow rows, each in order and filed by type |
| Finder.Finder.PersistAll | worker/finder.go:234-283 | the steps of the transaction, table by table, amount to `Persist`: every effect, or none |
| Finder.Finder.HandleBatch | worker/finder.go:144-288 | the businesses in list order, skipping those without a share, stopping at the first failure |
| Finder.Finder.HandleConfirmations | worker/finder.go:92-121 | a round raises the confirmation counters of each listed business under the head it was answered; a failing business is skipped, an error code ends the round, and a failing business query changes nothing and is reported |
| Finder.RoundConfirms | worker/finder.go:92-121 | with distinct businesses, each known one that the round gets to, that was answered a head and whose database was up has its deposits counted under that head; every other ledger stays as it was |
| Finder.AppliedOnce | worker/finder.go:234-283 | a share is applied if and only if all its transactions resolve, the transaction holds and the database is reached, and then its effect is that of one application |
| Finder.ResolvesExactly | worker/finder.go:174-190 | a share resolves if and only if every transaction is found, and each keeps its own amount and fee |
| Finder.ShareMoves | worker/finder.go:192-202 | an applied share changes every balance by the sum of what its transactions move there: a deposit in, a withdrawal out, the three internal types from sender to recipient, in the token and amount of the transaction |
| Finder.ShareFiles | worker/finder.go:204-228 | behind the rows that were there, one flow row for each transaction and one deposit, without a confirmation yet, for each of that type, in order, with the hash, height, sides, token, amount and type of its transaction |
| Finder.ShareSettles | worker/finder.go:252-270 | a filed withdrawal becomes wallet_done if and only if a withdrawal of the share bears its hash, a filed internal transfer if and only if one of the three internal types does; no other row changes |
| Finder.AppliedExactly | worker/finder.go:163-283 | a share is applied if and only if its transactions resolve, the columns can hold the rows, every entry fits by the sums before it, and the database is reached within the attempts |
| Finder.GoesOnExactly | worker/finder.go:144-288 | the finder goes on after a batch if and only if the business list can be read and is not empty, and every listed business of the batch can take its share |
| Finder.OutsideFundsStop | worker/finder.go:67-72 | a payment into a hot wallet from outside is of no type and not credited, so a share that begins with a withdrawal of more than the recorded balance is never applied |
| Finder.BatchIsAtomic | worker/finder.go:144-288 | the businesses applied are a prefix of the business list restricted to the batch, each applied exactly once to its ledger before the batch, all others untouched; nil is returned if and only if the prefix is everything, and otherwise the next one is the one that failed |
| Finder.ContributionIsGenuine | worker/synchronizer.go:232-263 | no emitted collection or transfer between hot and cold wallet has the same address on both sides |
| Finder.PersistExtendsReplay | worker/finder.go:236-282 | when the balances are the replay of the live flow rows, they still are after a batch, whose flow rows follow the earlier ones |
| Finder.ScannedMeansConfirmed | worker/finder.go:92-121 | the first confirmation pass at a head no lower than the one a block was scanned under promotes every success row of that block in the table, for every depth, although the finder keeps eight bits of it |
| Records.DepositsTable.UpdateDepositsConfirms | database/deposit.go:120-148 | updates every success row at or below the head as `Confirmed` says, with the uint64 subtraction and the uint8 counter |
| Records.PassExactly | database/deposit.go:120-148 | one pass over a table: no row comes, goes or moves; a success row at or below the head counts the blocks above its own up to the threshold and is promoted once there are enough; any other row stays as it was |
| Records.DepositsTable.HandleFallBackDeposits | database/deposit.go:151-171 | marks one row per height and stops at the first height without a row |
| Records.MarkRangeExactly | database/deposit.go:151-171 | marking any range of heights rolls a row back if and only if it is in the range, the first of its height, and no height below it in the range is empty; no other row changes |
| Records.DepositsTable.QueryNotifyDeposits | database/deposit.go:174-187 | each confirmed row is found as often as it is stored and no other row is, in the order of the table; a failed query finds nothing |
| Records.DepositsTable.UpdateDepositsStatusByTxHash | database/deposit.go:189-222 | sets the status of every row whose hash is listed |
| Records.TransactionsTable.HandleFallBackTransactions | database/transactions.go:73-92 | marks one row per height and stops at the first height without a row |
| Records.TransactionsTable.QueryFallBackTransactions | database/transactions.go:59-70 | finds exactly the live rows in the range |
| Records.InRangePlaced | database/transactions.go:59-70 | the rows found are exactly the live ones in the range, each as often as stored and in the order of the table |
| Records.WithdrawsTable.UpdateWithdrawStatusByTxHash | database/withdraws.go:126-161 | sets the status of every row whose hash is listed |
| Records.WithdrawsTable.HandleFallBackWithdraw | database/withdraws.go:197-215 | marks one row per height and stops at the first height without a row |
| Records.InternalsTable.UpdateInternalStatusByTxHash | database/internals.go:80-115 | sets the status of every row whose hash is listed |
| Records.InternalsTable.HandleFallBackInternals | database/internals.go:206-225 | marks one row per height, leaving out the last height, and stops at the first height without a row |
| Records.TipClearedExactly | database/transactions.go:73-92 | when rows above the tip are rolled back and those at the tip are not, whatever their status, rolling back the tip leaves it without a standing row if and only if it has at most one row |
| Records.AllClearedExactly | database/deposit.go:151-171 | marking height after height downwards, as a recovery does, leaves no standing row above the lowest if and only if each of those heights has at most one row, whatever the statuses of the rows not yet rolled back |
| Records.TipIsLastLive | database/transactions.go:59-92 | with at most one row at the tip, the query selects exactly the row that the marking takes out of the live rows, the last live one, or nothing |
| Records.ConfirmedExactly | database/deposit.go:131-140 | for heights and heads in 64 bits and thresholds in 8, no subtraction underflows and no counter loses bits |
| Records.PassesCollapse | database/deposit.go:120-148 | any run of passes with non-decreasing heads leaves in a table what one pass at the last head does: counters never fall, a row is promoted exactly at the first head far enough above it, other rows never change |
| Records.PassIsMonotone | database/deposit.go:131-140 | over two passes the counter does not fall or exceed the threshold, only success rows change, only into wallet_done, and exactly when the head is the threshold above the block |
| Records.ToNotifyExactly | database/deposit.go:174-187 | a row is offered for notification if and only if it is stored and confirmed |
| Recovery.TickDetects | rpcclient/batch_block.go:109-112 | against a node settled on one chain, a tick from an orphaned tip stores nothing and flags the header right above the tip |
| Recovery.PassRollsBackTip | worker/fallback.go:62-90 | the pass then takes off exactly the tip, or nothing when the transaction cannot hold |
| Recovery.StuckForGood | worker/fallback.go:126-183 | a tip whose rollback cannot be committed stops the recovery: every later round ends where it began |
| Recovery.ReplayRound | database/balances.go:413-436 | rolling back the tip undoes in the balances exactly the row it takes out of the replay |
| Recovery.RecoversExactly | worker/fallback.go:62-90 | after one tick and one pass for each orphaned block, exactly the orphaned blocks are gone if and only if the backup table holds no row with the number, hash or parent hash of one of them; then they stand in the backup table once each, highest first, cursor and flag are reset, exactly the deposits and flow rows above the kept height are rolled back, and the balances are the replay of the live rows |
| Recovery.RecoversInOrder | worker/fallback.go:62-90 | after any number of rounds up to that, exactly that many blocks have moved to the backup table, t, t - 1, ... in order |
| Recovery.ResumesOnChain | worker/synchronizer.go:125-154 | the first fetch after the recovery extends the kept blocks along the chain |
| Businesses.RollBackListExactly | worker/fallback.go:145-174 | the rollback of a list of businesses goes through if and only if each is known and can undo the first pooled entry, and then each ledger is what its own step makes of it and no other changes |
| Businesses.RollBackExactly | worker/fallback.go:126-183 | the rollback of a walk of any length goes through if and only if the backup table can take its rows and every listed business is known and can undo the first pooled entry; then the rows move, the tables of every listed business are marked, and no other changes |
| Businesses.UndoFirstExactly | database/balances.go:413-436 | the first pooled entry can be undone if and only if the stored balances of the sender and recipient rows leave room for it, for each of the five types |
| Businesses.TipTakenExactly | worker/fallback.go:106-124 | with any list of businesses, a round takes an orphaned tip off if and only if the backup table can hold it and every listed business's stored balances leave room for undoing the first pooled entry; then that entry, and no other, is undone in every one of them; otherwise nothing changes |
| Businesses.BlockedForGood | worker/fallback.go:126-183 | when that condition fails no number of rounds changes anything |
| Businesses.RecoveryMarks | worker/fallback.go:145-174 | whatever the businesses and however many rows stand at a height, a recovery that removes the orphaned blocks marks the deposits and flow rows of every listed business once for each of their heights, highest first |
| Businesses.RecoveryClearsExactly | worker/fallback.go:145-174 | such a recovery leaves no standing deposit, and no standing flow row, above the kept height if and only if each orphaned height has at most one of them |
| Businesses.BystanderExactly | worker/fallback.go:146-173 | a committed round leaves a listed business's balances alone if and only if the first pooled entry moves nothing |
| Businesses.StuckWitness | worker/fallback.go:106-124 | two businesses, one orphaned deposit: a concrete state that no number of rounds changes, although with the first business alone the round would take the tip off |
| Convergence.TickExtends | worker/synchronizer.go:125-162 | a tick whose reads and store succeed, against a node holding the chain of the stored tip, appends exactly the next stretch of that chain and leaves the scanner resting on it |
| Convergence.CatchesUp | worker/synchronizer.go:125-162 | k such ticks append the next k batches of the chain, or all up to the confirmed head, and no other block |
| Convergence.ReachedIs | rpcclient/batch_block.go:85-96 | k batches get min(gap, k * size) blocks far |
| Convergence.ConvergesToChain | worker/fallback.go:62-90 | from a reorganisation to the node's chain: after one round for each orphaned block and ticks enough for the gap, the stored blocks are the kept ones followed by exactly the chain's blocks from a + 1 to latest - depth |
| Convergence.BatchComesToRest | worker/synchronizer.go:125-162 | from any safe state with a waiting batch, one tick whose reads and store succeed leaves the scanner resting on that batch |
| Convergence.FlagComesToRest | worker/fallback.go:62-90 | from any safe state with a raised flag, one pass leaves the scanner resting on a prefix of the stored blocks, unless nothing is left |
| Canonical.BatchForOne | worker/finder.go:144-288 | a batch handled to its end does for a listed business exactly what its own share does, once |
| Canonical.RunForOne | worker/finder.go:67-73 | a run of handled batches appends one flow row for each transaction sent to the business, in order, and the balances stay the replay of the live rows |
| Canonical.LedgerFollowsChain | worker/finder.go:236-282 | from a reorganisation, through recovery and catching up, to the finder having handled all that was sent since: the stored blocks are the chain's from a + 1 to latest - depth, the live flow rows are those up to height a that were live before, then exactly one for each transaction those blocks contribute to the business, in order, and the balances are their replay |
| Canonical.LedgerIsOfChain | worker/finder.go:236-282 | against a node that reports the chain's transactions of a block or an error code for them, those added rows carry exactly the chain's transactions of those heights that concern the business, each once and in order, if and only if each of those blocks was classified with its transactions and right types, or concerns the business in nothing |
| Canonical.PremisesAreMet | worker/fallback.go:62-90 | a concrete reorganisation meets all premises of the three theorems around it: one round takes the orphaned block off, one tick stores two blocks of the chain, and the finder handles the deposit in them |
| Canonical.ReadyGrows | worker/finder.go:236-282 | handling transactions at ascending heights, one for each, keeps a ledger ready to be rolled back |
| Canonical.ReadyAgain | worker/fallback.go:93-186 | a ledger that was recovered and followed the chain is ready for the next reorganisation, when each block holds at most one transaction of the business and that reorganisation stays above the heights rolled back so far |
| Notifier.Notifier.AfterNotify | worker/notifier.go:130-176 | after a success the requested deposits, withdrawals and internal transfers become notified together, in one retried transaction, or none does; without a success nothing changes |
| Notifier.Notifier.NotifyBusiness | worker/notifier.go:79-118 | one round for one business: query, send unless there is nothing to send, acknowledge on success |
| Notifier.AcknowledgeExactly | worker/notifier.go:138-169 | the update marks, in each of the three tables, exactly the rows whose hashes its own list bears; listed deposits that were never signed do not count |
| Notifier.RoundExactly | worker/notifier.go:79-118 | a round answered with success that reaches the database marks, in each of the three tables whose query succeeded, exactly the rows that share their hash with a confirmed row of that table, also when only one table has any; otherwise nothing changes |
| Notifier.RoundIsQueryThenAnswer | worker/notifier.go:79-118 | on the deposits, a round is a query event followed by its answer event of the protocol below |
| Notifier.StepInProgress | database/deposit.go:174-222 | every insert of a fresh hash, confirmation pass, query and answer keeps the protocol invariant: distinct hashes, only the three statuses, a request under way names stored, confirmed deposits only |
| Notifier.HistoryIsLife | worker/notifier.go:70-176 | over every interleaving the status history of a deposit is a contiguous stretch of success, wallet_done, notified, from its first status to its last |
| Notifier.NotifiedExactly | worker/notifier.go:130-176 | a deposit ends notified if and only if it began so or a request carrying its hash was answered with success and stored |
| Notifier.StaysOffered | database/deposit.go:174-187 | until then a confirmed deposit stays wallet_done and the next successful query offers it again |
| Notifier.SkipsExactly | database/deposit.go:189-222 | for any rows, a round that is answered and stored leaves a row notified if and only if it was so before or a confirmed row shares its hash; so unconfirmed and rolled-back rows can be notified with another |
| Clock.DeterministicClock.constructor | common/clock/deterministic.go:128-133 | a new clock has nothing pending and is valid |
| Clock.DeterministicClock.After | common/clock/deterministic.go:147-158 | a zero delay sends at once and closes the channel, any other delay waits |
| Clock.DeterministicClock.AfterFunc | common/clock/deterministic.go:160-170 | a zero delay runs the function at once, any other delay waits |
| Clock.DeterministicClock.NewTimer | common/clock/deterministic.go:189-202 | a timer always waits, even with a zero delay |
| Clock.DeterministicClock.NewTicker | common/clock/deterministic.go:172-187 | panics on a period that is not positive, otherwise waits one period |
| Clock.DeterministicClock.StopTimer | common/clock/deterministic.go:61-67 | true exactly for a timer neither stopped nor run; the timer is stopped either way |
| Clock.DeterministicClock.StopTicker | common/clock/deterministic.go:82-86 | the ticker is stopped and keeps its place in the pending list until it is next due |
| Clock.DeterministicClock.Receive | common/clock/deterministic.go:57-59 | a receive takes the one waiting value, if any, out of the channel, and that value is the time of the last firing |
| Clock.DeterministicClock.ResetTicker | common/clock/deterministic.go:88-96 | panics on a period that is not positive, otherwise the next tick is due one new period from now |
| Clock.DeterministicClock.FireAction | common/clock/deterministic.go:26-117 | the three fire methods; no send is ever made to a full or closed channel |
| Clock.DeterministicClock.AdvanceTime | common/clock/deterministic.go:235-246 | the sweep fires each due action once, in order, and keeps exactly those not due or firing again |
| Clock.StepIsValid | common/clock/deterministic.go:147-246 | every operation keeps the invariant: pending in order of registration without repetitions, channels hold at most one value and that value is the time of the last firing, waiting one-shots have open, empty channels and have not run, unstopped tickers wait, a one-shot that is over was heard of exactly once and one that is not, never |
| Clock.StepAt | common/clock/deterministic.go:235-246 | actions do not interfere: what any operation does to one action depends on that action and the time alone |
| Clock.OneShotFate | common/clock/deterministic.go:22-67 | over every run of operations and of advances in either direction, a waiting task, timer or AfterFunc is stopped in time if a Stop comes first, else fires at the first advance that reaches its due time, else is not heard of; once over it is never heard of again; so it fires at most once, and Stop answers true at most once and only if it never fires |
| Clock.Registered | common/clock/deterministic.go:147-202 | a positive delay registers a one-shot that waits until that much later |
| Clock.RegisteredAs | common/clock/deterministic.go:147-202 | a task or AfterFunc without a delay is over at once, the task's value in its closed channel; every other registration waits, also a timer without a delay, due its delay from now |
| Clock.NothingDueStays | common/clock/deterministic.go:235-246 | after an advance no due one-shot is pending |
| Clock.FiresInOrder | common/clock/deterministic.go:235-246 | one advance makes its firings heard at the new time and in order of registration |
| Clock.HandsOutFiringTimes | common/clock/deterministic.go:22-117 | over any run a channel hands out the times at which its action fired, each once and in order: the value that waited and the times fired since are the values received and the value that waits |
| Clock.TickerFate | common/clock/deterministic.go:69-117 | over every run of operations and of advances in either direction, an unstopped ticker ticks at exactly the advances that reach its due time and find its channel empty, and is then due one period later; a reset sets both, a stop ends it |
| Clock.TicksAgain | common/clock/deterministic.go:104-117 | a ticker that ticked at time t and whose tick was received ticks again at the first advance that reaches t + period, and not before |
| Clock.TicksAreSpaced | common/clock/deterministic.go:104-117 | the published ticks of a ticker that is not reset are at least one period apart, none before it is due |
| Clock.TickerKeepsTicking | common/clock/deterministic.go:104-117 | an unstopped ticker never leaves the pending list, its channel never holds more than one tick, and an advance that finds it due with an empty channel publishes the new time once |
| AdvancingClock.AdvancingClock.constructor | common/clock/advancing.go:24-33 | the clock starts at the system time, which is also the first reference |
| AdvancingClock.AdvancingClock.OnTick | common/clock/advancing.go:62-72 | ignores a tick that is not later than the last one, otherwise advances by the difference |
| AdvancingClock.NoDrift | common/clock/advancing.go:62-72 | over every run of ticks, stale, repeated or out of order, and of uses of the embedded clock: now = start + (last tick - first reference) + the time moved by hand, and the last tick is the latest one |
| AdvancingClock.LatestIsHighest | common/clock/advancing.go:62-66 | the last tick is the first reference or an arrived tick, and no arrived tick is later |
| AdvancingClock.RunsTheClock | common/clock/advancing.go:8-17 | every run is a run of the deterministic clock, so what holds of its timers, tasks and tickers holds here |

## Left out

- Sending withdrawals and internal transfers, address registration, the gRPC services, configuration, logging, serialisation and parsing: plumbing around the modelled core.
- `UpdateBalanceListByTwoAddress` and the lock-balance protocol described in comments: the lookup misses lower-case rows, as its own comment says. `BeforeAfterNotify` has no caller.
- A rollback that reverses everything at once, as documented, is not modelled: `Balances.UndoIsTotal` proves that the handlers would allow it.
- PostgreSQL is a set of sequences with all-or-nothing transactions. `Take` and `Find` without an order return the first rows in table order. A commit whose outcome is unknown to the client is not modelled.
- Addresses and hashes are numbers: letter case and hexadecimal form are not modelled. Amounts and fees arrive as integers; a malformed decimal string, on which the code dereferences a nil integer, is not modelled.
- Messages in the business channel are the list `emitted`; the finder takes them out in order (`Canonical.HandleAll`) and is assumed to be done with a block before its rollback, which is what `Ready` says of the ledger in `Recovery`.
- Goroutines are interleaved at whole ticks, passes, rounds and notification requests; data races inside those steps are not modelled.
- The body of a notification request: which fields of a row it carries to the business.
- Waiting: retry delays and jitter, system time, `SleepCtx`, `WaitForNewPendingTask` and the loop runner.
- Clock: times and durations are unbounded integers, without the saturation of `time.Duration`. A registered action is known by its number in the table `actions`, whose order stands for the references shared between clock and caller. A timer's function is the note that it ran; a function that calls back into the clock, which would deadlock, is not modelled. `Start` and `Stop` of `AdvancingClock` only decide which ticks arrive.
- Safety.RunsAreSafe: assumes the schedule above, because the code itself does not enforce it.
- Recovery.RecoversExactly: for one business and one row per height. With more, the code is wrong, and `Businesses.TipTakenExactly`, `Businesses.RecoveryClearsExactly` and `Records.AllClearedExactly` say exactly how.
- Convergence.ConvergesToChain: starts from a resting scanner; `Convergence.BatchComesToRest` and `Convergence.FlagComesToRest` lead there from any other safe state, without saying what a pass for a header of an earlier chain does to the ledger.
- Notifier.HistoryIsLife: for deposits; withdrawals and internal transfers enter the protocol with other statuses and take part in `Notifier.AfterNotify` only.
