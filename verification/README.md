# Tokenable backend: verified model

A Dafny model of the parts of the Tokenable backend whose correctness is easy to
get wrong: the ownership index replayed from chain logs, the code that paces and
serialises outside calls, the price-list files, the redeem fees, the exchange
rates and the outgoing mail. `dafny verify dfyconfig.toml` checks everything.

The model keeps the source's own shape. Services whose methods update fields are
classes whose methods are proved against functions on the fields' values; loops
stay loops; code between two `await` points is one atomic step. Theorems about
interleavings are about every sequence of steps of a machine built from those
same functions. Time is an integer clock, money and rates are exact rationals,
tables are maps or row lists, and a remote call is an input that may fail.

## What is proved

**Owner index** (`Erc721`, `EventOrder`, `OwnerRows`, `OwnerReplay`,
`OwnerTheorems`, `OwnerReady`, `OwnerIndexService`, `ListenerPair`). The specification is ownership at a block
by the `Transfer` events of ERC-721. The machine mines blocks, starts capped
passes, fetches chunks in any order the node likes, writes rows one by one,
crashes anywhere, saves the cursor, and lets other code write owners and burns in
between. The invariant: a token with no event left to replay shows its owner as of
the newest block any write has reflected. From it follow equality with the chain
at every saved cursor, convergence with outside writers, permanence of burns, the
tiling of the block range, a bound on the passes to a fixed head, and two exact
conditions: when a late outside write is harmless, and when an index marked ready
is current. The class's loops are proved to be runs of that machine, and the counts
a finished pass compares are tied to the chain. Nothing in the
source keeps the passes of several processes apart; `ListenerPair` shows that they
must be.

**Index scheduler** (`IndexScheduler`, `IndexOutcomes`). Exactly one of the boot check, a timer, a
pass or a poll is alive until stop. The listener's comment says failed passes back
off 2, 4, 8 minutes; the code raises the streak before computing the delay, so the
first retry waits twice the base delay. `FailedPassDelay` states the delay over
whole runs, `CommentedDelayIff` when it is the commented one, and `BackoffGrows`
when the cap makes a failed pass retry sooner than a successful one. `NextActivity`
says what each activity leads to, from the flags and failures the run itself shows.

**Pacing and admission** (`CsvPacing`, `RpcSemaphore`, `SignerLock`,
`CircuitBreaker`, `GuideSync`, `GuideRuns`, with `Powers` for doubling delays). Each is a class
for the synchronous stretches plus a machine over all interleavings. The breaker's
half-open state admits every caller until one finishes, although a comment speaks
of a probe; the model and `HalfOpenAdmitsEveryone` follow the code. The guide sync's
lock belongs to a database session, so it goes when the session ends, even under a
running import; and a failed unlock leaves it held, because releasing a pooled
connection does not end its session although a comment says so. Both are steps of
the model, and an immediate end of the session after a failed unlock is one case.
The download gate counts a Retry-After from the start of the request, not from its
response, so a slow response that asks for more than the cooldown is undercut;
`RetryAfterIff` says exactly when. Its `throw` callers do not wait for a slot, as a
comment says, but do wait for the gate. `GuideRuns` says which guides a sync imports
and what their jobs show afterwards.

**Price lists** (`CsvSplit`, `CsvCells`, `CellForms`, `PriceListCsv`, `PriceListPrint`,
`PriceTable`, `PriceListReprint`, `PriceListFiles`, `ManualHistory`, `ManualRows`). The line splitter undoes
printing in the sense of RFC 4180, section 2. The file parser is last-row-wins in
first-appearance order; it undoes printing of whole files, those with the program's
own header among them, and printing what any file parses to gives the same rows
back. `CellForms` and `PriceListFiles` are about files as they come, with dollar signs,
commas, blanks, any line breaks and columns in any order. Importing price history is a last-writer-wins fold; its days are cast to the
`date` column of `backend/sql/schema/073_pricecharting_price_history.sql`, which
refuses days that are not in the calendar.

**Redeem fees** (`RedeemMoney`, `RedeemShipments`, `RedeemEstimate`,
`RedeemTheorems`, `RedeemBill`). The calculator groups, rounds and sums at three levels. It is
proved equal to a reference that filters tokens by key, charges the schedule in
closed form and adds shipment totals without rounding; `RedeemBill` reads an accepted
estimate, and the reason for a refusal, off the custody rows and deposit times. Partner ids are uuids
(`backend/sql/schema/030_rwa_tokens.sql`), so the name `unknown`, which the grouping
gives to a missing one, is never a partner's.

**Exchange rates** (`FxSnapshot`, `FxPayload`, `FxService`, `FxTheorems`, `FxDong`). Snapshot selection,
payload parsing, and the in-memory copies of any number of processes over one
table. The table's own check (`backend/sql/schema/080_fx.sql`) refuses a rate that is zero
at eight decimals, so a refresh with such a rate rolls back whole.

**Mail** (`MimeLines`, `MimeReader`, `MimeBuilder`, `MimeRoundTrip`, `MimeLetter`). The
builder against a reader written from section 5.1.1 of RFC 2046, up to the whole letter
read back by its header fields.

## Model

| member | source | states |
|---|---|---|
| Erc721.OwnerIsLastEffect | backend/src/blockchain/rwa-token-owner-index.service.ts:353-362 | Ownership at a block is decided by the token's last event up to it, the meaning the replay's sorted writes aim at |
| Erc721.BurnedHasNoOwner | backend/src/blockchain/rwa-token-owner-index.service.ts:182-194 | On a final log a token burned by a block has no owner there |
| EventOrder.SortRestoresChainOrder | backend/src/blockchain/rwa-token-owner-index.service.ts:334-355 | Whatever order the node answers a range in, filtering positive ids and sorting yields the range's logs in chain order, none lost or doubled |
| OwnerRows.RefoldIff | backend/src/blockchain/rwa-token-owner-index.service.ts:132-194 | For any events in any order: folding a chunk again over its first k writes gives the rows of one clean fold exactly when no token lost a burn (no row, burns only before its owner writes, one of those reached) |
| OwnerRows.RefoldAfterCrash | backend/src/blockchain/rwa-token-owner-index.service.ts:323-372 | When nothing follows a burn, as in every final log, it does for every chunk, every k and any rows |
| OwnerReplay.FetchedChunkRefolds | backend/src/blockchain/rwa-token-owner-index.service.ts:332-372 | So for the batch of every fetch, whatever the node's order and whatever the rows hold: written in part, lost and written again leaves the rows of one clean write |
| OwnerReplay.StepKeeps | backend/src/blockchain/rwa-token-owner-index.service.ts:272-401 | Every step of any process keeps: a token with nothing left to replay shows its owner as of the newest block written |
| OwnerTheorems.ReplayEqualsChain | backend/src/blockchain/rwa-token-owner-index.service.ts:291-377 | For any passes, pauses and crashes inside chunks, when the cursor is saved at b the visible rows are exactly ownership at b |
| OwnerTheorems.ConvergesAtHead | backend/src/blockchain/rwa-token-owner-index.service.ts:132-240 | With fresh outside writes interleaved anywhere, an index whose cursor reached the head equals the chain |
| OwnerTheorems.BurnedForever | backend/src/blockchain/rwa-token-owner-index.service.ts:142-179 | A row once marked burned is never visible again, whatever is replayed or written over it |
| OwnerTheorems.LateWriteIff | backend/src/blockchain/rwa-token-owner-index.service.ts:197-240 | An outside owner write leaves the caught-up index right exactly when a later log corrects it, the row is already burned, or it is the owner at the head |
| OwnerTheorems.SavedScansTile | backend/src/blockchain/rwa-token-owner-index.service.ts:298-377 | Saved ranges tile the blocks from the deploy block to the cursor: each block is in exactly one |
| OwnerTheorems.BoundedPasses | backend/src/blockchain/rwa-token-owner-index.service.ts:302-377 | From any reachable idle state, with the head fixed and crashes and outside writes in between: once finished passes times their cap cover the blocks behind, nothing is left to scan and between chunks the index equals the chain |
| OwnerTheorems.ReadyIsCurrentIff | backend/src/blockchain/rwa-token-owner-index.service.ts:368-386 | From a save until the next fetch, through mining, finishing and marking ready, the rows are ownership at the cursor, and at the head exactly when no token changes owner on net above the cursor |
| OwnerTheorems.ReadyIsNotCurrent | backend/src/blockchain/rwa-token-owner-index.service.ts:379-386 | A run that condition excludes: marked ready by the count while a later transfer is unread |
| OwnerTheorems.SaveRestoresFlag | backend/src/blockchain/rwa-token-owner-index.service.ts:368-372 | In every run a save leaves the ready flag as its pass found it, so a mark made during the pass is lost |
| OwnerIndexService.OwnerIndex.RecordOwner | backend/src/blockchain/rwa-token-owner-index.service.ts:132-158 | Upserts one owner and keeps any burn stamp; a malformed address changes nothing |
| OwnerIndexService.OwnerIndex.RecordBurn | backend/src/blockchain/rwa-token-owner-index.service.ts:160-180 | Clears the owner and stamps an existing row once; a missing row stays missing |
| OwnerIndexService.OwnerIndex.RecordTransfer | backend/src/blockchain/rwa-token-owner-index.service.ts:182-194 | Applies one log as a burn or an owner write |
| OwnerIndexService.OwnerIndex.PersistOwnerMap | backend/src/blockchain/rwa-token-owner-index.service.ts:197-240 | Writing in statements of 100 equals one upsert of the whole map, last entry per id winning |
| OwnerIndexService.LastEntryIsKept | backend/src/blockchain/rwa-token-owner-index.service.ts:197-215 | Of a scan's entries the last well-formed one of each positive id is written |
| OwnerIndexService.OwnerIndex.GetTokenIdsByOwner | backend/src/blockchain/rwa-token-owner-index.service.ts:83-103 | Exactly the ids visible for the wallet, ascending |
| OwnerIndexService.OwnerIndex.BuildHolderIndex | backend/src/blockchain/rwa-token-owner-index.service.ts:106-130 | A wallet lists an id exactly when the id is visible under it, each id once |
| OwnerIndexService.OwnerIndex.BackfillFromTransferLogs | backend/src/blockchain/rwa-token-owner-index.service.ts:272-401 | Every path, throws included, is a run of the machine; a finished pass reaches the head or scans at least the cap and less than a chunk more. With no other writer it returns the number of logs it scanned, and its ready flag follows the chain: set when totalSupply is positive and at most the tokens owned at its last block, left alone when fewer are owned, and set on an empty chain only when caught up with nothing scanned |
| OwnerReady.CountedOnChain | backend/src/blockchain/rwa-token-owner-index.service.ts:244-256 | With no other writer, the owned rows a pass counts are exactly the tokens that have an owner at the last block it saved, whatever crashed before |
| ListenerPair.ApartConverges | backend/src/blockchain/rwa-transfer-index-listener.service.ts:124-171 | Any number of listener processes converge as one does as long as their passes never overlap |
| ListenerPair.OverlapLosesATransfer | backend/src/blockchain/rwa-transfer-index-listener.service.ts:124-171 | A run of two overlapping passes after which the cursor is at the head, everybody is idle and a sold token shows its first owner |
| IndexScheduler.OneLiveActivity | backend/src/blockchain/rwa-transfer-index-listener.service.ts:116-250 | Until stop exactly one of boot check, backfill timer, pass, poll timer, poll is alive; none exactly when a flag read has thrown |
| IndexScheduler.PollOnlyWhenIndexed | backend/src/blockchain/rwa-transfer-index-listener.service.ts:188-226 | A pass and a poll never overlap, and a poll reads logs only while every chain is indexed |
| IndexScheduler.NothingArmedAfterStop | backend/src/blockchain/rwa-transfer-index-listener.service.ts:55-66 | In every continuation after stop no timer is armed |
| IndexScheduler.BackoffGrows | backend/src/blockchain/rwa-transfer-index-listener.service.ts:100-105 | Delays grow with the streak up to the cap, and undercut the normal delay exactly when that exceeds the cap |
| IndexScheduler.FailedPassDelay | backend/src/blockchain/rwa-transfer-index-listener.service.ts:124-171 | In every run a failed pass arms the next one with the delay for the number of failed passes in a row, counted on the run |
| IndexScheduler.CommentedDelayIff | backend/src/blockchain/rwa-transfer-index-listener.service.ts:100-105 | That is the delay the comment describes exactly after the fifth failure in a row, or once the smaller of the two has reached the cap |
| IndexScheduler.DefaultDelays | backend/src/blockchain/rwa-transfer-index-listener.service.ts:83-105 | At the default of two minutes the delays are 4, 8, 15 minutes, and the comment is right from the fourth failure on |
| IndexScheduler.TransferIndexListener.BackfillTimerFires | backend/src/blockchain/rwa-transfer-index-listener.service.ts:116-127 | A fired timer is cleared, and a pass starts unless stopped or running |
| IndexScheduler.TransferIndexListener.PollTimerFires | backend/src/blockchain/rwa-transfer-index-listener.service.ts:173-192 | A fired timer is cleared, and a poll checks readiness or is armed again |
| IndexScheduler.TransferIndexListener.PollChecked | backend/src/blockchain/rwa-transfer-index-listener.service.ts:188-205 | An unready chain sends the listener back to backfilling, else the poll runs |
| IndexScheduler.TransferIndexListener.PollEnds | backend/src/blockchain/rwa-transfer-index-listener.service.ts:222-226 | The running flag is cleared and the next poll armed |
| IndexScheduler.TransferIndexListener.OnModuleDestroy | backend/src/blockchain/rwa-transfer-index-listener.service.ts:55-66 | Stopping clears both timers |
| IndexScheduler.TransferIndexListener.BackfillPassEnds | backend/src/blockchain/rwa-transfer-index-listener.service.ts:124-171 | The end of a pass on the six fields: back off, go again or go idle |
| IndexOutcomes.NextActivity | backend/src/blockchain/rwa-transfer-index-listener.service.ts:107-250 | In every run, until stop, what an activity that ends has read and polled decides the timer it arms: a pass has asked every chain, and arms the back-off after a failure, another pass when some chain's last answer was no, else the poll; a check that finds an unindexed chain arms a pass; a poll has polled every chain and arms the next; a boot check that finds all indexed arms the poll |
| IndexOutcomes.PassBegins | backend/src/blockchain/rwa-transfer-index-listener.service.ts:124-134 | A pass begins with the first chain, when its timer fires or boot finds an unindexed chain |
| IndexOutcomes.PollBegins | backend/src/blockchain/rwa-transfer-index-listener.service.ts:188-197 | A fired poll timer has the flags checked from the first chain on |
| IndexOutcomes.NothingBeginsAfterStop | backend/src/blockchain/rwa-transfer-index-listener.service.ts:55-66 | After stop no pass begins, and once the activity in progress is over nothing does |
| CsvPacing.StartsAreSpaced | backend/src/pricecharting/pricecharting.service.ts:147-172 | For any mix of waiting, throwing, failing and retried downloads, starts i and j are at least j - i times ten minutes apart |
| CsvPacing.NotesAreRespected | backend/src/pricecharting/pricecharting.service.ts:31-39 | Every start respects what the code reserved for a response; against what its Retry-After asked, counted from when it was read, it comes early by no more than the response's latency, and not at all after a response within the slack |
| CsvPacing.ReservedIff | backend/src/pricecharting/pricecharting.service.ts:175-183 | What one response reserves covers what its header asks exactly when it was read within the slack, the cooldown less the asked wait |
| CsvPacing.RetryAfterIff | backend/src/pricecharting/pricecharting.service.ts:147-183 | In every run no request can come before the time a Retry-After asks for, exactly when it asks for no wait or was read within the slack |
| CsvPacing.AskedTooLate | backend/src/pricecharting/pricecharting.service.ts:175-183 | A run in which a slow 429 is undercut by a minute |
| CsvPacing.RefusedExactlyWhenEarly | backend/src/pricecharting/pricecharting.service.ts:147-183 | In every run a throwing caller at the free head of the gate is refused exactly when the last start's cooldown or what was reserved for a response still forbids a start, and a refusal changes nothing but the queue |
| CsvPacing.ThrowWaitsForTheGate | backend/src/pricecharting/pricecharting.service.ts:142-157 | A throwing caller is never put to sleep for a slot, but reaches the gate only after as many departures as there were callers ahead of it |
| CsvPacing.SleepIsExact | backend/src/pricecharting/pricecharting.service.ts:158-165 | A waiting caller sleeps to the first moment a start is allowed |
| CsvPacing.RefusalIsExact | backend/src/pricecharting/pricecharting.service.ts:158-164 | A refused caller hears the least whole number of seconds after which it would not be refused |
| CsvPacing.NextStartIsTenMinutesOn | backend/src/pricecharting/pricecharting.service.ts:165-168 | Left alone, the next start is allowed exactly ten minutes after this one |
| CsvPacing.OnlyHeadersMoveThePace | backend/src/pricecharting/pricecharting.service.ts:175-183 | In every run only a Retry-After moves the pace, whatever the status; a 429 without one changes nothing |
| CsvPacing.AskedIsItsDelay | backend/src/pricecharting/pricecharting.service.ts:32-39 | The delay of a header leads to the time it names: so many seconds on, or its date unless that has passed |
| CsvPacing.PricechartingService.NoteCsvPace | backend/src/pricecharting/pricecharting.service.ts:175-183 | A response moves the reserved time only later |
| CsvPacing.PricechartingService.WithCsvDownload | backend/src/pricecharting/pricecharting.service.ts:147-172 | The gate holder's first stretch: refuse, sleep for exactly the missing time, or start |
| CsvPacing.DownloadPriceList | backend/src/pricecharting/pricecharting.service.ts:309-330 | Which attempts are made: another only after a retryable failure, and the last one's outcome is returned |
| RpcSemaphore.CapAndArrivalOrder | backend/src/blockchain/rpc-retry.util.ts:78-111 | In every interleaving holders number `inflight` and never exceed the cap, nobody waits while a slot is free, and grants are in arrival order |
| RpcSemaphore.GrantedByItsRelease | backend/src/blockchain/rpc-retry.util.ts:93-110 | A waiter at position p is granted by exactly its p+1st release |
| RpcSemaphore.GrantStays | backend/src/blockchain/rpc-retry.util.ts:93-110 | A grant is never taken back and its caller never queues again |
| RpcSemaphore.Drive | backend/src/blockchain/rpc-retry.util.ts:78-111 | The object, driven by the same calls, follows the machine |
| RpcSemaphore.WithRpcRateLimitRetry | backend/src/blockchain/rpc-retry.util.ts:27-44 | Calls are repeated only after rate limits, at most the limit in all, with the stated total wait; the last call is the first that was not rate limited, or the limit's |
| RpcSemaphore.WaitsDouble | backend/src/blockchain/rpc-retry.util.ts:27-44 | The waits in closed form: doubling from 400 ms for seven retries, then half a minute each |
| SignerLock.FreeExactlyWhenTurn | backend/src/blockchain/rwa-chain-writer.service.ts:68-85 | A write may start exactly when every earlier write of its key has settled |
| SignerLock.OneAtATimeInOrder | backend/src/blockchain/rwa-chain-writer.service.ts:68-85 | Writes of one key never overlap and run in arrival order, whether earlier ones succeed or fail |
| SignerLock.OnlyOwnKeyBlocks | backend/src/blockchain/rwa-chain-writer.service.ts:54-85 | Only an unsettled earlier write of the same key can block a write |
| SignerLock.StoredTailSettlesLast | backend/src/blockchain/rwa-chain-writer.service.ts:68-85 | In every run the tail stored for a key is never rejected, and is fulfilled exactly when every write of the key has settled |
| SignerLock.RwaChainWriter.WithSignerLock | backend/src/blockchain/rwa-chain-writer.service.ts:68-85 | A submission is chained to the key's stored tail and becomes the new one |
| SignerLock.WritesAreTheRuns | backend/src/blockchain/rwa-chain-writer.service.ts:68-85 | Every submitted write is there with its key, standing where its own start and end in the run put it |
| SignerLock.CallerLearnsItsOutcome | backend/src/blockchain/rwa-chain-writer.service.ts:68-85 | A caller's promise is fulfilled or rejected exactly as its own write ended |
| CircuitBreaker.RefinesHistory | backend/src/cardhedger/cardhedger.service.ts:101-152 | State, count and opening time are functions of the history; closed exactly when failures since the last success are below the threshold |
| CircuitBreaker.RejectedExactlyInWindow | backend/src/cardhedger/cardhedger.service.ts:101-115 | A call is rejected exactly within the reset window of the last opening failure that no success has followed |
| CircuitBreaker.OpeningIsAFailure | backend/src/cardhedger/cardhedger.service.ts:129-152 | The opening is a failure of the history with no success after it |
| CircuitBreaker.HalfOpenAdmitsEveryone | backend/src/cardhedger/cardhedger.service.ts:101-115 | Once half-open, every caller is admitted until one of them finishes |
| CircuitBreaker.CardhedgerService.IsCircuitOpen | backend/src/cardhedger/cardhedger.service.ts:101-115 | The admission check on the three fields |
| CircuitBreaker.CardhedgerService.Finish | backend/src/cardhedger/cardhedger.service.ts:299-345 | Which upstream outcomes the breaker hears of, and as what |
| CircuitBreaker.ClosedIff | backend/src/cardhedger/cardhedger.service.ts:299-345 | In terms of upstream answers: closed exactly while fewer outages than the threshold (network errors, 429s, server errors) have ended in a row with no other answer between them |
| CircuitBreaker.AnswerCloses | backend/src/cardhedger/cardhedger.service.ts:117-127 | Any other answer, client errors included, closes the breaker and clears the count |
| GuideSync.OneImportAtATime | backend/src/database/pg-session-advisory-lock.util.ts:13-45 | With any number of processes, two imports execute at once only if one of them has lost the session that held the lock for it |
| GuideSync.LostSessionAdmitsAnother | backend/src/database/pg-session-advisory-lock.util.ts:20-44 | And then any idle process can start one beside it, as long as nobody has taken the lock since |
| GuideSync.LockIsReleased | backend/src/database/pg-session-advisory-lock.util.ts:13-45 | The lock is free exactly when no sync is at work on an open session and every failed unlock's session has ended |
| GuideSync.RunningImpliesInFlight | backend/src/pricecharting/pricecharting-sync.service.ts:268-295 | A guide shown as running is backed by a sync in flight in that process, so an idle process shows none |
| GuideSync.AdvisoryLock.RunWithPgSessionAdvisoryLock | backend/src/database/pg-session-advisory-lock.util.ts:13-45 | Held by the session while the function runs; afterwards as before, free if the session dropped meanwhile, still held if the unlock query failed |
| GuideSync.PricechartingSync.EnqueueOne | backend/src/pricecharting/pricecharting-sync.service.ts:243-266 | Admits exactly a known guide on an idle process, and marks it running |
| GuideSync.PricechartingSync.BeginAll | backend/src/pricecharting/pricecharting-sync.service.ts:295-301 | A whole run begins exactly on an idle process |
| GuideSync.PricechartingSync.SyncReturns | backend/src/pricecharting/pricecharting-sync.service.ts:268-289 | A returning sync records its guide's result and clears the flag |
| GuideRuns.EverythingIsImported | backend/src/pricecharting/pricecharting-sync.service.ts:318-378 | In every run, whatever other syncs, processes and sessions do, a sync that reaches the unlock has imported all its items, each once and in order; a whole run ends early only right after a guide whose failure stopped it |
| GuideRuns.GuidesShowTheirImports | backend/src/pricecharting/pricecharting-sync.service.ts:318-361 | Each guide a whole run has imported shows as succeeded exactly when its import did |
| GuideRuns.SingleGuideShowsItsImport | backend/src/pricecharting/pricecharting-sync.service.ts:268-289 | A single guide's sync leaves it shown as succeeded exactly when it was imported and that went well |
| CsvSplit.SplitDelimitedLine | backend/src/pricecharting/pricecharting-csv.ts:329-361 | The quote and delimiter loop computes the recursive reading of the line |
| CsvSplit.SplitUndoesPrint | backend/src/pricecharting/pricecharting-csv.ts:329-361 | Fields printed quoted (inner quotes doubled) or bare, in any mix and for either delimiter, split back exactly |
| CsvSplit.BareRoundTripIff | backend/src/pricecharting/pricecharting-csv.ts:329-361 | Fields written bare come back exactly when none holds a quote or the delimiter |
| CsvSplit.RunsJoin | backend/src/pricecharting/pricecharting-csv.ts:329-361 | Quotes may open and close anywhere in a cell: bare and quoted runs of one cell are joined |
| CsvSplit.UnclosedQuote | backend/src/pricecharting/pricecharting-csv.ts:329-361 | Text after a quote that is never closed is one field to the end of the line |
| CsvCells.CentsRoundTrip | backend/src/pricecharting/pricecharting-csv.ts:109-117 | Printed cents, of either sign, decode to the same cents |
| CsvCells.IntRoundTrip | backend/src/pricecharting/pricecharting-csv.ts:368-376 | Printed integers that fit the column decode to the same integer |
| CellForms.PaddingIsDropped | backend/src/pricecharting/pricecharting-csv.ts:363-392 | Blanks around a cell are dropped, and nothing else |
| CellForms.DressedCents | backend/src/pricecharting/pricecharting-csv.ts:109-117 | Every amount with dollar signs, commas and blanks put in anywhere decodes to its cents, and to nothing when they do not fit the column |
| CellForms.DollarsRoundTrip | backend/src/pricecharting/pricecharting-csv.ts:108-117 | Amounts as the files print them, `$1,234.50`, read back to the cent with either sign |
| CellForms.DashIsNoPrice | backend/src/pricecharting/pricecharting-csv.ts:110-111 | Nothing, a dash or an em dash, in any blanks, is no price |
| CellForms.DecimalsRound | backend/src/pricecharting/pricecharting-csv.ts:112-116 | A price with any number of decimals decodes to the nearest cent, and to nothing exactly when that does not fit |
| CellForms.CountRoundTrip | backend/src/pricecharting/pricecharting-csv.ts:368-376 | Whole numbers with thousands commas and blanks around decode to themselves, and to nothing when they do not fit |
| CellForms.DecimalsAreCut | backend/src/pricecharting/pricecharting-csv.ts:368-376 | Decimals of a count are cut off, towards zero |
| CellForms.DayIff | backend/src/pricecharting/pricecharting-csv.ts:378-382 | A day is four digits, two and two, with dashes between |
| PriceListCsv.DetectDelimiter | backend/src/pricecharting/pricecharting-csv.ts:317-326 | Tab exactly when the header has more tabs than commas outside quotes |
| PriceListCsv.TabIff | backend/src/pricecharting/pricecharting-csv.ts:317-326 | The file is read as tab-separated exactly when its header has more tabs than commas with an even number of quotes before them |
| PriceListCsv.ParsePricechartingCsv | backend/src/pricecharting/pricecharting-csv.ts:394-454 | The parser's loops compute the last-row-wins reading of the file's lines |
| PriceListCsv.ReadRows | backend/src/pricecharting/pricecharting-csv.ts:418-445 | The map loop keeps the last row per id in insertion order; valid lines plus skipped are the data lines |
| PriceListCsv.LastRowWins | backend/src/pricecharting/pricecharting-csv.ts:418-445 | Ids are distinct and each row is the last valid line with its id |
| PriceListCsv.EveryIdKept | backend/src/pricecharting/pricecharting-csv.ts:418-445 | Every valid line's id is kept |
| PriceListCsv.FirstAppearanceOrder | backend/src/pricecharting/pricecharting-csv.ts:418-445 | Rows come in the order their ids first appear |
| PriceListCsv.GenresSumToRows | backend/src/pricecharting/pricecharting-csv.ts:447-453 | Each genre's count is its number of rows and the counts sum to the row count |
| PriceListPrint.HeaderRecognised | backend/src/pricecharting/pricecharting-csv.ts:317-326 | The detector recognises the delimiter a header was printed with |
| PriceListPrint.ParseUndoesPrint | backend/src/pricecharting/pricecharting-csv.ts:394-454 | Printing rows with distinct ids, any cells quoted, and parsing the file gives the same rows, nothing skipped |
| PriceTable.ProgramHeaders | backend/src/pricecharting/pricecharting-csv.ts:18-46 | The program's own 27 price headers, with the ten fixed ones, are distinct names the detector cannot misread |
| PriceTable.ProgramFilesComeBack | backend/src/pricecharting/pricecharting-csv.ts:394-454 | So files with the program's own header read back as printed |
| PriceListReprint.ParsedRowsAreStorable | backend/src/pricecharting/pricecharting-csv.ts:394-454 | Whatever the file holds, the parsed rows have distinct ids and each can be stored on one line |
| PriceListReprint.ReprintIsSame | backend/src/pricecharting/pricecharting-csv.ts:394-454 | Printing what any accepted file parses to and parsing that gives the same rows and genre counts, nothing skipped |
| PriceListFiles.BreaksComeBack | backend/src/pricecharting/pricecharting-csv.ts:395-396 | Whatever mix of line breaks a file has, its lines that are not blank are kept as they are |
| PriceListFiles.AnyHeaderRecognised | backend/src/pricecharting/pricecharting-csv.ts:401-408 | A header in any letter case, padded, quoted or bare, gives its delimiter and its names |
| PriceListFiles.FilesAreRead | backend/src/pricecharting/pricecharting-csv.ts:394-454 | A file as they come (byte order mark, any breaks, blank lines, columns in any order, unknown columns, short lines, dressed amounts, lines without an id) parses to the rows its lines show, last one per id, with the others counted as skipped |
| PriceListFiles.HeaderIsRequired | backend/src/pricecharting/pricecharting-csv.ts:409-411 | A file with data whose header names no id or no product is refused |
| ManualHistory.ManualHistoryPricePatch | backend/src/pricecharting/pricecharting-csv.ts:56-79 | The first bad cell's error, or the cents of every filled cell |
| ManualHistory.MergeManualHistoryPrices | backend/src/pricecharting/pricecharting-csv.ts:82-103 | The full column set, patched where the patch speaks and prior elsewhere; refused exactly on an unknown column |
| ManualHistory.MergeTwice | backend/src/pricecharting/pricecharting-csv.ts:82-103 | Merging twice equals merging the combined patch, and the keys are always the full column set |
| ManualHistory.LastWriterWins | backend/src/pricecharting/pricecharting-import.service.ts:601-616 | After any rows each product, day and column holds the cents of the last accepted row that filled it, else the prior value |
| ManualHistory.FullColumns | backend/src/pricecharting/pricecharting-import.service.ts:509-521 | Every stored day keeps exactly the price columns as keys |
| ManualHistory.History.RecordManualHistory | backend/src/pricecharting/pricecharting-import.service.ts:482-550 | One row: the checks in order, last the calendar day the database's cast demands, then the merged day, and the catalog's loose price when asked |
| ManualHistory.History.ImportManualHistoryCsv | backend/src/pricecharting/pricecharting-import.service.ts:567-621 | `ok` counts the accepted rows, the failures are exactly the refused rows in order with line, id and reason, and the tables are the fold |
| ManualRows.TypedAmount | backend/src/pricecharting/pricecharting-csv.ts:66-75 | A cell with an amount in any dress is taken to the cent; a negative one never is |
| ManualRows.AcceptedIff | backend/src/pricecharting/pricecharting-import.service.ts:482-520 | A row is accepted exactly when its id is digits and in the catalog, its day is in the calendar, every cell is taken and one is filled; a refusal gives the first check that fails |
| ManualRows.WrittenIs | backend/src/pricecharting/pricecharting-csv.ts:56-79 | An accepted row writes, per column of its day, the cents its last filled cell decodes to |
| ManualRows.NothingElseWritten | backend/src/pricecharting/pricecharting-import.service.ts:509-521 | and nothing to another day, product or column |
| ManualRows.LooseFollowsLast | backend/src/pricecharting/pricecharting-import.service.ts:523-548 | When asked, the catalog's loose price is that of the last accepted row that fills it; otherwise it stays |
| ManualRows.EveryAcceptedCounts | backend/src/pricecharting/pricecharting-import.service.ts:601-606 | `ok` is the number of rows that are accepted |
| ManualRows.EveryRefusalIsReported | backend/src/pricecharting/pricecharting-import.service.ts:607-613 | Each refused row follows, in the report, those refused before it |
| ManualRows.MonthsFillTheYear | backend/sql/schema/073_pricecharting_price_history.sql:3-8 | The months of the `date` type fill every year of the Gregorian calendar exactly |
| ManualRows.DayIsTakenIff | backend/src/pricecharting/pricecharting-import.service.ts:509-521 | A text names a day the cast takes exactly when it is a day of that calendar, from year 1 |
| RedeemMoney.MicrosAreCents | backend/src/rwa/redeem-fee.types.ts:66-72 | The on-chain amount is exactly ten thousand micros a cent |
| RedeemMoney.RoundingShifts | backend/src/rwa/redeem-fee.types.ts:66-68 | Whole cents pass through rounding, alone or added to anything |
| RedeemShipments.GroupTokens | backend/src/rwa/redeem-shipping-fee.calculator.ts:119-137 | Filling the insertion-ordered map yields, per key in order of first appearance, exactly the tokens with that key |
| RedeemShipments.GroupsPartition | backend/src/rwa/redeem-shipping-fee.calculator.ts:119-137 | Together the groups hold exactly the tokens, none lost or doubled |
| RedeemShipments.PsaShipment | backend/src/rwa/redeem-shipping-fee.calculator.ts:189-236 | Summing and rounding card lines charges the schedule: shipping once, retrieval a card, the early fee an early card |
| RedeemShipments.PsaCardsAddUp | backend/src/rwa/psa-vault-fee.schedule.ts:84-109 | Card totals of an n-card PSA package are within (n + 3) / 2 cents of its total |
| RedeemShipments.WholeScheduleAddsUp | backend/src/rwa/psa-vault-fee.schedule.ts:84-109 | With a whole-cent schedule they add up exactly |
| RedeemShipments.PartnerCardsAddUp | backend/src/rwa/redeem-shipping-fee.calculator.ts:277-301 | A partner package's cards add up exactly, whatever the quote |
| RedeemEstimate.UniqueIdsAreThePositiveOnes | backend/src/rwa/redeem-shipping-fee.calculator.ts:71-74 | The ids used are the positive floors named, each once |
| RedeemEstimate.Totals | backend/src/rwa/redeem-shipping-fee.calculator.ts:313-352 | Five roundings later every total is still the plain sum over shipments |
| RedeemEstimate.EstimatePsaOnlyCardCount | backend/src/rwa/redeem-shipping-fee.calculator.ts:355-428 | Charging by multiplication prices one PSA package of that many cards of unknown age |
| RedeemEstimate.EstimateRedeem | backend/src/rwa/redeem-shipping-fee.calculator.ts:51-353 | The whole calculation, refusals in the source's order, equals the reference estimate |
| RedeemTheorems.TotalIsTheSumOfShipments | backend/src/rwa/redeem-shipping-fee.calculator.ts:313-345 | The total is the exact sum of the shipment totals and of the fees shown beside it, and one million micros a dollar |
| RedeemTheorems.EveryTokenIsChargedOnce | backend/src/rwa/redeem-shipping-fee.calculator.ts:104-137 | Every distinct positive id is on exactly one card line, nothing else is, and the card count is their number |
| RedeemTheorems.ShipmentsAreDisjoint | backend/src/rwa/redeem-shipping-fee.calculator.ts:119-137 | No token is in two shipments |
| RedeemTheorems.ShipmentsMatchTheirCards | backend/src/rwa/redeem-shipping-fee.calculator.ts:188-311 | In every accepted estimate one card per shipment carries its shipping and the card totals stay within (n + 3) / 2 cents |
| RedeemTheorems.AcceptedIff | backend/src/rwa/redeem-shipping-fee.calculator.ts:76-275 | A request is accepted exactly when every token is indexed and every package can ship |
| RedeemTheorems.NamelessShipsIff | backend/src/rwa/redeem-shipping-fee.calculator.ts:122-149 | A package with a partner token that has no partner id can ship exactly when its first token names a partner `unknown` that can ship it |
| RedeemTheorems.NamelessIsRefused | backend/src/rwa/redeem-shipping-fee.calculator.ts:139-150 | Partner ids being uuids, a request with a partner token that has no partner id is always refused, whatever travels with it |
| RedeemTheorems.CountOnlyAgrees | backend/src/rwa/redeem-shipping-fee.calculator.ts:355-428 | PSA tokens of unknown age are priced as the same number of unnamed cards, field by field |
| RedeemBill.MetaIff | backend/src/rwa/redeem-shipping-fee.calculator.ts:104-117 | A token is priced by its first custody row and its deposit time, when that row is known and has a policy |
| RedeemBill.EveryLineFits | backend/src/rwa/psa-vault-fee.schedule.ts:67-109 | Every card line of an accepted request: retrieval for a PSA card, the early fee exactly when it was deposited less than the schedule's days ago or at an unknown time, and no fee for a partner's |
| RedeemBill.EveryShipmentFits | backend/src/rwa/redeem-shipping-fee.calculator.ts:188-311 | Every shipment of an accepted request ships at its country's published rate, or at its partner's quote for that many cards |
| RedeemBill.FeesAreForTheTokens | backend/src/rwa/redeem-shipping-fee.calculator.ts:188-352 | The bill in closed form from custody rows and deposit times: retrieval per distinct PSA card and the early fee per card that owes it, each rounded once, however the cards are grouped or ordered |
| RedeemBill.EarliestIsFirst | backend/src/rwa/redeem-shipping-fee.calculator.ts:271-276 | The estimate runs out with the first of its quotes, and never without one |
| RedeemBill.CountIsCharged | backend/src/rwa/redeem-shipping-fee.calculator.ts:355-428 | Without ids the count is cut to between one and the package limit, and every card pays retrieval and the early fee |
| RedeemBill.RefusedBeforePackages | backend/src/rwa/redeem-shipping-fee.calculator.ts:76-117 | Ids need a chain first, then an index entry each |
| RedeemBill.UnadmittedIsRefused | backend/src/rwa/redeem-shipping-fee.calculator.ts:139-150 | The first package with too many cards or no partner id refuses the request, before any destination or quote |
| RedeemBill.DestinationIsRefused | backend/src/rwa/redeem-shipping-fee.calculator.ts:152-168 | Then a partner package needs a destination, given and recognised |
| RedeemBill.UnquotedIsRefused | backend/src/rwa/redeem-shipping-fee.calculator.ts:238-270 | Last, the first partner package without an address or a quote |
| FxSnapshot.PublishableFxSnapshot | backend/src/fx/fx-ecb.ts:47-73 | The greatest date on which every listed code has a positive rate, its newest fetch and its rates; nothing exactly when no such date exists |
| FxSnapshot.RatesOnAreLast | backend/src/fx/fx-ecb.ts:53-63 | A published rate is that of the last valid row of its currency and date |
| FxSnapshot.PublishableIsUnique | backend/src/fx/fx-ecb.ts:41-73 | The rows determine the selection |
| FxSnapshot.ParseEcbRatesPayload | backend/src/fx/fx-ecb.ts:124-158 | Accepted exactly when it is a non-empty list of well-formed dollar quotes of one date covering every code |
| FxPayload.GoodPayloadIff | backend/src/fx/fx-ecb.ts:124-158 | Field by field: taken exactly when it is a list of dollar quotes (three capitals, a date, a positive rate) of one date that quotes every code |
| FxPayload.LastQuoteIsTaken | backend/src/fx/fx-ecb.ts:129-151 | Of each currency the last quote is taken |
| FxService.FitsIff | backend/src/fx/fx-rate.entity.ts:15-21 | The rates the column and its check take: at least half a unit of the eighth decimal, below the overflow |
| FxService.Service.FetchAndStore | backend/src/fx/fx.service.ts:101-164 | When a refresh stores, does nothing, or throws, and the table and memory after each |
| FxService.Service.LoadFromDb | backend/src/fx/fx.service.ts:166-174 | Memory becomes the publishable snapshot, or stays |
| FxService.HeldTableIsPublishable | backend/src/fx/fx.service.ts:128-174 | Reading a committed table back gives that payload's date and its rates to eight decimals |
| FxTheorems.MemoryIsNeverPartial | backend/src/fx/fx.service.ts:60-174 | Over any run memory is empty or holds every listed currency at a positive rate, all from one payload |
| FxTheorems.LoadFollowsThePeer | backend/src/fx/fx.service.ts:78-99 | A load after any peer's refresh gives the last committed payload, each rate to half a unit of the eighth decimal |
| FxTheorems.RepeatIsUnchanged | backend/src/fx/fx.service.ts:114-123 | In the process that stored it, the same payload again counts as unchanged |
| FxService.EcbCodesAreListed | backend/src/fx/supported-currencies.ts:2-30 | The program's allowlist is one these theorems apply to: not empty, without the dollar and the dong |
| FxTheorems.RepeatAfterReloadIff | backend/src/fx/fx.service.ts:114-123 | After a reload the same refresh counts as unchanged exactly when no listed rate, and no dong rate it brought, has more than eight decimals |
| FxTheorems.DollarIsOneIff | backend/src/fx/fx.service.ts:207-220 | The dollar is published at one exactly when the payload does not quote it otherwise |
| FxDong.PublishedDong | backend/src/fx/fx.service.ts:124-127 | A fetched dong is published; without one the last known stays |
| FxDong.DongIsCarried | backend/src/fx/fx.service.ts:124-127 | Over any run a dong in memory outlasts every refresh whose dong fetch failed |
| FxDong.LoadedDongIsLast | backend/src/fx/fx-ecb.ts:92-97 | A load shows the dong of the last commit that brought one, whoever made it |
| FxDong.SkippedIff | backend/src/fx/fx.service.ts:114-123 | A refresh is skipped exactly when publishing it would move neither the date, nor a listed rate, nor a fetched dong |
| MimeLines.Base64LinesRestore | backend/src/email/rfc822.util.ts:3-8 | Lines of at most 76 characters; without their breaks they are the encoding |
| MimeRoundTrip.AlternativeRoundTrip | backend/src/email/rfc822.util.ts:31-55 | Without images a reader finds the headers and exactly the two texts, if and only if no line of either looks like a delimiter |
| MimeRoundTrip.RelatedRoundTrip | backend/src/email/rfc822.util.ts:57-81 | With images it finds the text part, inside it the two texts, and the images in order, if and only if no text line looks like a delimiter of its level |
| MimeRoundTrip.TextPartsHoldTheTexts | backend/src/email/rfc822.util.ts:31-46 | Each text part is the text and the one line break the builder adds |
| MimeRoundTrip.ImagePartHoldsItsData | backend/src/email/rfc822.util.ts:57-67 | Each image part is the encoding in lines of at most 76 |
| MimeLetter.LetterRoundTrip | backend/src/email/rfc822.util.ts:10-81 | A reader that goes by field names gets the whole letter back: sender, recipient, subject, both texts, and every image with its type, name, id and encoding |

## Left out

- Chain reorganisations, unparsable logs and token id 0: logs are final and the index keeps ids above zero, as the code assumes.
- ListenerPair.ApartConverges: a sufficient condition; which overlapping passes happen to end well is not characterised.
- Addresses are numbers; wallet text normalisation is not modelled beyond well-formed or not.
- OwnerIndexService.OwnerIndex.BuildHolderIndex: does not state the order inside a wallet's list, which in the source is the query's textual order.
- OwnerRows.RefoldAfterCrash: rows are compared up to the time inside a burn stamp, which is NOW() at each write.
- IndexScheduler assumes at least one chain with a deploy block; chain names and log reads are not modelled.
- Floating point: money, rates and cell values are exact rationals, with rounding written out.
- RedeemEstimate.EstimateRedeem: one clock reading for a whole estimate; custody rows, deposit dates, partner addresses, carrier quotes and the resolved destination country are inputs; label, source and pay-to texts are not modelled.
- FxService: rows are listed in table order; the staleness flag, logging, the fetches themselves and parseUsdQuote are not modelled (the dong rate is an input).
- GuideSync: sources' settings and the import itself are outcomes; a sync that has lost its session is not noticed by the code, and the model does not say what two imports at once do to the catalog.
- CsvPacing: the JSON gate of one second is the same pattern with a constant and is not repeated; request contents and fetch-level retries are not modelled.
- CircuitBreaker: request building, retries inside one call and binary forwarding are not modelled; an upstream call is its final outcome.
- SignerLock: the transactions inside the lock are not modelled; minting inside a retry wrapper is not claimed to happen at most once.
- CsvCells: JavaScript's `Number` is exact on plain decimals and an arbitrary function on every other text.
- PriceListPrint.ParseUndoesPrint: header case folding is ASCII only.
- PriceListCsv: parseManualHistoryCsv, parseManualTradesCsv and the header aliases they accept are not modelled.
- ManualHistory.MergeManualHistoryPrices: stored days hold cents or nothing; text left in a stored day is not modelled, and as in the source, keys outside the column set are dropped.
- MimeLetter.LetterRoundTrip: image types hold no semicolon, names no quote and ids no closing bracket, since nothing escapes them.
- PriceListFiles.FilesAreRead: header cells are padded with spaces only, and a header has at least two columns.
- MimeRoundTrip: header values are one line each, boundaries have no quote, and image data is given as its base64 text; encoding of bytes is not modelled.
- KYC, receipts, sealed-box matching, image proxying, controllers, configuration readers and the user interface.
