# Verification model of Captain.Food's actor mailboxes and checkout

This project models, in Dafny, the parts of the repository whose correctness depends on
interleavings, crashes and retries, and proves what they promise.
`dafny verify dfyconfig.toml` checks all of it.

**The mailbox runtime.** Two tables hold everything: the lane registry and the message rows
(`Tables.dfy`: one function per SQL statement). `Protocol.dfy` lets any number of workers issue
those statements in any order, holding beliefs that may be out of date, and dying at any point; its
invariant is kept by every step. `Guarantees.dfy` draws the conclusions: effects at most once, no
authority for a superseded claim, the checkpoint as a high-water mark, one writer per aggregate.
`Checkpoint.dfy` says what the checkpoint tells about the rows at or below it.
`Database.dfy` and `Worker.dfy` are the same statements and the worker's loops as classes; between
two statements of a drain other workers issue statements of theirs. `Balance.dfy` is the fair-share
rebalance, `RunLoop.dfy` the two-clock loop, `Pacing.dfy` the back-off and the poison cap,
`Routing.dfy`, `Entries.dfy`, `Sources.dfy` and `Mailbox.dfy` the way rows come to be.

**The activation cache.** `Recency.dfy` says what the cache is, a list in order of use;
`ActivationCache.dfy` is the tick-stamped dictionary, equal to it after every operation;
`Coherence.dfy` is the cache against the log it caches, `Freshness.dfy` the guard behind it where
streams are also erased.

**The staging store.** `EventLog.dfy` is the log and its uniqueness rule, `Staging.dfy` the buffered
store over it with adaptive handlers, `ProcessState.dfy` the buffered process-manager rows.

**Checkout money.** `Pricing.dfy` has the two pricing loops, `PricingLaws.dfy` and `CatalogAsOf.dfy`
their laws, `Credit.dfy` the store-credit ledger under interleaved handlers, `Checkout.dfy` the
amounts of `place_order` and their stability over retries.

**Reserve before append.** `Arbiters.dfy`: riders, members and labels.

`Wrappers.dfy` and `Lists.dfy` are the option and result types and a few facts about lists.

## Where the code does not do what is said of it

Each of the first group is stated as the exact condition under which the promise holds, so that
whatever fails the condition breaks the promise; where the condition is about whole runs, a run
that breaks it is given beside it.

- At most once needs the handlers' failure codes to differ from the one the poison cap stamps: the
  requeue tells a poisoned row by its code alone (`Guarantees.AtMostOnceIff`,
  `Guarantees.DoubleDelivery`). The repository's own handlers never produce that code.
- A worker can drop a lane it still owns: `poison_raw` is not fenced, so a stale owner can fail the
  row the live owner is delivering. It does so exactly when its own completion under that claim
  finds the row finished (`Guarantees.LiveDropIff`, `Guarantees.LiveLaneDropped`).
- A supervision comment calls everything at or below the checkpoint terminal. The checkpoint is a
  high-water mark (`Guarantees.CheckpointIsHighWater`), and the comment holds throughout a run
  exactly when no row becomes visible, is requeued or is passed over below it
  (`Checkpoint.DoneBelowIff`); a row inserted late is RECEIVED there and delivered there
  (`Checkpoint.ReceivedBelowCheckpoint`, `Checkpoint.DeliveredBelowCheckpoint`).
- Promotion of a held state after a commit is a get and an unfenced put. A run with promotions keeps
  the cache coherent exactly when each of them is timely (`Coherence.PromotionsSafeIff`); one that
  is not is in `Coherence.RacingPromotion`, and no policy with promotions is coherent in every run
  (`Coherence.CoherentIff`). What holds in every run is the freshness guard in the completion
  transaction: while streams only grow, no delivery commits on an old held version
  (`Coherence.GuardedDelivery`).
- That guard compares version numbers. With the deletion engine at work it is no longer exact
  (`Freshness.GuardExactIff`): a stream erased and grown again to the version it had passes it, and
  the delivery commits on a fold of what was erased (`Freshness.ErasedRegrown`).
- The dedupe identity of an inbound fact does not mark where the source's name ends. It tells events
  apart exactly when no source's name runs on from another one past a colon
  (`Sources.InboundIdentityIff`, `Sources.InboundIdentityClash`); the repository's own names,
  colons included, are such (`Sources.RepositorySourcesInjective`).
- The store-credit books balance exactly when the stream is empty or opens with a grant: a debit of
  nothing on a ledger that does not exist is emitted, forgotten and emitted again
  (`Credit.BooksBalanceIff`, `Credit.EmptyDebitRepeats`). Checkout never debits nothing.
- Live pricing and pricing at the head's own coordinate agree on every cart exactly when the
  catalog's first and last word on each offer charge the same (`CatalogAsOf.HeadPricingIff`); an
  offer listed twice with two prices breaks it (`CatalogAsOf.AmbiguousDiffers`).
- A put larger than the cache evicts everything, itself included (`Recency.PutEmptiesIff`).
- The bulk inbound door flags every copy of a repeated new fact as newly enqueued
  (`Mailbox.BulkAgreesIff`).
- The buffered process rows do not mirror the table for lookups by payment intent when an upsert
  changes it (`ProcessState.ByIntentFaithfulIff`).
- A retried checkout applies the same credit only if the first attempt debited some, or nothing can
  ever apply (`Checkout.RetryStableIff`); otherwise one more grant or debit moves it
  (`Checkout.UnpinnedMoves`).
- Charge and debit make up the gross exactly when the order had not been debited by the time of the
  attempt's own debit, or by the same amount (`Checkout.ChargeAndDebitIff`). The single-flight row is
  written at the end of an attempt, so two may overlap, and then they can miss it either way
  (`Checkout.OverlapMisses`); one after the other they miss it exactly when the gross has fallen
  below the earlier debit (`Checkout.SequentialAttemptsIff`, `Checkout.FallenGrossMisses`).
- The rebalance is said to decide nothing on stale counts. A census and its steal are two statements,
  and what the census promised holds exactly if the victim is still that far ahead when the second
  one runs (`Balance.StaleStealIff`).

Two more are comments that the code does not bear out.

- The retry comment counts five waits, about five minutes. The last stamp is never waited out: the
  defaults give 150 seconds (`Pacing.DefaultsWait150Seconds`).
- A database error in the middle of a beat loses the whole lane list, not the one lane
  (`Worker.MailboxWorker.Beat`).

## Model

| member | source | states |
|---|---|---|
| `Guarantees.AtMostOnceIff` | crates/actor_runtime/src/completion.rs:62-106 | over all runs of any number of workers that claim, steal, expire, crash, complete, poison and requeue, every message's effects are committed at most once, if and only if no handler fails with the code the requeue takes for poison |
| `Guarantees.EffectsExactlyOfDecided` | crates/actor_runtime/src/completion.rs:77-98 | a message's effects are in the log, once, exactly when its row is terminal by a verdict; a poisoned row has none |
| `Guarantees.RunPreservesEffects` | crates/actor_runtime/src/worker.rs:458-518 | counting, flipping, requeuing, promoting and crashing never decide a row or take a decision back, along any run |
| `Guarantees.DoubleDelivery` | crates/application/src/behaviour_support.rs:747-774 | the run that commits one message twice when a handler's own failure carries the poison code and is requeued |
| `Guarantees.RunGrows` | crates/actor_runtime/src/lease.rs:82-129 | along every run versions and checkpoints never decrease, the log only grows, no row leaves or changes lane, and a claim stays its first worker's |
| `Guarantees.StaleNeverCommits` | crates/actor_runtime/src/lease.rs:289-310 | once a lane's version has moved on, nothing is ever committed under an earlier one, however the run continues |
| `Guarantees.StaleHasNoEffect` | crates/actor_runtime/src/lease.rs:250-287 | heartbeat, release and completion under a superseded version change neither table |
| `Guarantees.OneWorkerPerVersion` | crates/actor_runtime/src/lease.rs:188-246 | on one lane, commits are ordered by version and those of one version are one worker's |
| `Guarantees.DroppedIff` | crates/actor_runtime/src/worker.rs:240-308 | a heartbeat or a completion drops a claim exactly when it was made under that claim and a later version has superseded it, or it was a completion and found its row terminal; other claims of the same partition are kept |
| `Guarantees.LiveDropIff` | crates/actor_runtime/src/worker.rs:297-307 | a worker drops a lane it still owns exactly when its own completion under that claim finds the row finished by somebody else |
| `Guarantees.LiveLaneDropped` | crates/actor_runtime/src/worker.rs:297-307 | the run that gets there: after a stale owner's poison flip a worker drops a lane it still owns |
| `Guarantees.CheckpointIsHighWater` | crates/actor_runtime/src/lease.rs:289-310 | in every reachable state a lane's checkpoint is the largest position committed on it, zero if none |
| `Guarantees.LateRowDelivered` | crates/actor_runtime/src/worker.rs:326-353 | the owner delivers a RECEIVED row wherever its position lies, below the checkpoint too, and the checkpoint stays the greater of the two |
| `Checkpoint.DoneBelowIff` | crates/actor_client/src/supervision.rs:39-40 | everything at or below a checkpoint is terminal throughout a run exactly when no row becomes visible at or below it, none is requeued there, and no commit passes an earlier RECEIVED row of its lane |
| `Checkpoint.StepDoneIff` | crates/actor_runtime/src/worker.rs:326-353 | step by step: those three are the only ones that end it |
| `Checkpoint.ReceivedBelowCheckpoint` | crates/actor_runtime/src/worker.rs:326-353 | the run that ends it: two positions drawn, the second committed and delivered first, then the first one RECEIVED below the checkpoint |
| `Checkpoint.DeliveredBelowCheckpoint` | crates/actor_runtime/src/worker.rs:326-353 | and that row delivered where it is, the checkpoint unmoved |
| `Guarantees.OneAggregateOneWriter` | crates/actor_client/src/partition.rs:54-60 | with every row built by a door or by a completion's own enqueues, or a reminder on the lane of the row that declares it, all commits for one aggregate are on its one declared lane, under non-decreasing versions, one worker per version |
| `Protocol.InvPreserved` | crates/actor_runtime/src/worker.rs:195-321 | every step of every worker keeps positions distinct, beliefs and deliveries backed by issued claims, the log ordered by version and the checkpoint at its high-water mark |
| `Protocol.RunPreservesInv` | crates/actor_runtime/src/worker.rs:596-669 | so does every run |
| `Database.Database.SeedPartitions` | crates/actor_runtime/src/lease.rs:41-78 | an empty keyspace is seeded, the declared one is left alone, any other is refused and nothing changes |
| `Database.Database.ClaimDueLanes` | crates/actor_runtime/src/lease.rs:82-129 | exactly the lowest claimable partitions up to the bound are taken over, each at its next version, and returned as they then stand |
| `Database.Database.OwnershipCensus` | crates/actor_runtime/src/lease.rs:148-187 | the loop finds the live owner with most lanes, ties to the smaller identity |
| `Database.Database.StealFrom` | crates/actor_runtime/src/lease.rs:188-222 | the victim's highest live lane changes hands at its next version, and nothing happens exactly when it has none |
| `Database.Database.Heartbeat` | crates/actor_runtime/src/lease.rs:250-271 | renews exactly a claim that still stands |
| `Database.Database.ReleaseLane` | crates/actor_runtime/src/lease.rs:273-287 | frees exactly a claim that still stands |
| `Database.Database.Complete` | crates/actor_runtime/src/completion.rs:72-105 | verdict, checkpoint and effects together, or nothing when the row is no longer RECEIVED or the claim was superseded |
| `Database.Database.RequeueIfPoisoned` | crates/infrastructure/src/persistence/mailbox_lanes.rs:222-271 | the row is reset exactly when it was poisoned; the four answers each say what the row was |
| `Database.Database.PromoteDue` | crates/actor_runtime/src/schedule.rs:18-28 | every due row of the actor type, and no other, becomes RECEIVED at a position of its own drawn in this pass |
| `Database.Database.Batch` | crates/actor_runtime/src/worker.rs:336-352 | the first RECEIVED rows of the lane by position; a row it leaves out lies beyond a full batch |
| `Worker.MailboxWorker.PoisonRaw` | crates/actor_runtime/src/worker.rs:458-518 | one attempt counted and the next stamped; at the cap a second statement fails the row if it still is RECEIVED, with others acting in between, and the answer says whether it did |
| `Worker.MailboxWorker.DrainRow` | crates/actor_runtime/src/worker.rs:354-431 | a paced row is not touched; a delivered one was RECEIVED and the claim stood when it committed; each way to stop says what was found |
| `Worker.MailboxWorker.DrainBatch` | crates/actor_runtime/src/worker.rs:356-432 | head-of-line under interference by statements that put no row on the lane (no insertion, promotion or requeue): each row is finished while RECEIVED with no earlier row of the batch still RECEIVED, and what is finished is a prefix |
| `Worker.MailboxWorker.DrainLane` | crates/actor_runtime/src/worker.rs:333-448 | terminates; everything it finished is in position order over all batches; it returns with the lane empty, or halted at a row it read as RECEIVED on this lane, first of what remains, whose stamp is still in the future, or an error; it reports superseded only if the claim no longer stands, and gone only of such a row that is no longer RECEIVED |
| `Worker.IdleHaltIsReal` | crates/actor_runtime/src/worker.rs:356-374 | so a drain that changed nothing cannot report a paced head of a lane whose first row is due |
| `Worker.PacedRowStillPaced` | crates/actor_runtime/src/worker.rs:356-374 | unless an attempt was counted meanwhile, the row the drain halted at still carries a stamp in the future when it returns |
| `Worker.BatchExtends` | crates/actor_runtime/src/worker.rs:433-446 | a later batch lies wholly beyond the ones before it |
| `Worker.ProgressSurvives` | crates/actor_runtime/src/worker.rs:333-448 | what a drain knows about its batch holds whatever statements of others do meanwhile that put no row on the lane |
| `Worker.MailboxWorker.Drain` | crates/actor_runtime/src/worker.rs:284-321 | every owned lane with work is drained in turn whatever the others return, each drain as `DrainLane` promises, the row it halted at included, and starting where the last ended; exactly the claims fenced or gone are forgotten; the answer is the sum |
| `Worker.WithoutKeeps` | crates/actor_runtime/src/worker.rs:300-304 | a claim stays in the list exactly if it was there and was not itself dropped |
| `Worker.MailboxWorker.Claim` | crates/actor_runtime/src/worker.rs:160-181 | the lanes taken over join the list, and only they change |
| `Worker.MailboxWorker.Rebalance` | crates/actor_runtime/src/worker.rs:195-235 | steal by steal up to the pass bound, other workers' statements between any two of its own: each steal decided by a fresh census and taking the highest of the victim's lanes still live; stopping short of the bound means that the census says stop or that those lanes have vanished |
| `Worker.UndisturbedConverges` | crates/actor_runtime/src/worker.rs:195-235 | with nobody else acting, that is a run of converging steals |
| `Worker.MailboxWorker.Beat` | crates/actor_runtime/src/worker.rs:240-261 | renews in list order, each heartbeat some time after the one before it and other workers' registry statements in between, and keeps exactly what was renewed; a database error loses the whole list |
| `Worker.StillHeldIff` | crates/actor_runtime/src/worker.rs:240-261 | after a beat that went through, a lane is in the list exactly if it was there and its claim stood when its heartbeat came |
| `Worker.BeatCovers` | crates/actor_runtime/src/worker.rs:240-261 | a lane a beat renewed and nobody took since is this worker's when the beat ends, for at least a whole lease from the beat's start, however long the beat took |
| `Balance.StealStepConverges` | crates/actor_runtime/src/lease.rs:131-222 | a census and its steal conserve the lanes, leave the victim at or above the thief's share, and lower the sum of squares by two at least |
| `Balance.StaleStealIff` | crates/actor_runtime/src/lease.rs:188-222 | where others act between census and steal the lanes are conserved all the same, and those two promises hold exactly if the victim by then is above the share, and two lanes above the thief |
| `Balance.StealRunsTerminate` | crates/actor_runtime/src/worker.rs:195-235 | in whatever order the participants steal, the number of steals is bounded by the sum of squares they began with |
| `Balance.QuiescentIsFair` | crates/actor_runtime/src/lease.rs:131-146 | when no census asks for a steal, each of k participants holds at least floor(total/k) and at most what that leaves |
| `Balance.FairIsQuiescent` | crates/actor_runtime/src/lease.rs:131-146 | and conversely, with no more participants than lanes, an allocation of at least the floor each asks for no steal |
| `Balance.QuiescentIff` | crates/actor_runtime/src/lease.rs:131-146 | exactly when nobody steals: everyone holds the floor, or, with more participants than lanes, nobody holds two |
| `Balance.CensusDecides` | crates/actor_runtime/src/lease.rs:148-187 | a census is determined by the registry |
| `RunLoop.Run` | crates/actor_runtime/src/worker.rs:596-655 | whatever nudges, shutdown changes and push flag do: beats at most a heartbeat apart, full passes at most the longer of the two intervals and at least the shorter, the last ones not overdue; each sleep ends at its timer or earlier at its wake-up, a nudge delivers then and there, and the loop ends at the first turn that finds shutdown set |
| `RunLoop.Sleep` | crates/actor_runtime/src/worker.rs:616-646 | only a nudge delivers, and at once; noticing a dropped shutdown sender does not cut the sleep short |
| `RunLoop.LeaseNeverLapses` | crates/actor_runtime/src/worker.rs:566-655 | with the heartbeat shorter than the lease, a lane claimed at any moment of the run is under an unexpired lease at every later one |
| `RunLoop.LeaseLapses` | crates/actor_runtime/src/worker.rs:24-31 | with a heartbeat that is not shorter it is not: the undisturbed loop beats at its start, sleeps its first interval out, and the lease has run out |
| `Pacing.PoisonBound` | crates/actor_runtime/src/worker.rs:354-431 | an always-failing row is FAILED after exactly cap attempts, never with a cap of zero or less, and no attempt comes before the back-off of the one before is over |
| `Pacing.TimeToPoison` | crates/actor_runtime/src/worker.rs:463-496 | from first attempt to failure at least the waits between them; the last stamp is never waited out |
| `Pacing.EarliestPasses` | crates/actor_runtime/src/worker.rs:463-496 | that time is also enough |
| `Pacing.WaitSumClosed` | crates/actor_runtime/src/worker.rs:463-480 | the waits doubled up to the exponent's ceiling and linear beyond, in closed form |
| `Pacing.DefaultsWait150Seconds` | crates/actor_runtime/src/worker.rs:49-61 | with the shipped defaults, 150 seconds |
| `Recency.TrimIsLongestSuffix` | crates/actor_runtime/src/activation.rs:170-180 | what survives a put is the longest most recently used suffix that fits |
| `Recency.PutEmptiesIff` | crates/actor_runtime/src/activation.rs:135-141 | a put leaves the cache empty exactly when its value is larger than the cache |
| `ActivationCache.ActivationCache.Get` | crates/actor_runtime/src/activation.rs:80-100 | a live entry moves to the most recently used end with a fresh idle window, an expired one goes, a missing one changes nothing |
| `ActivationCache.ActivationCache.Put` | crates/actor_runtime/src/activation.rs:142-181 | tick stamps, byte total and eviction loop compute the list operation; the total stays exact and within the bound |
| `ActivationCache.ActivationCache.EvictToFit` | crates/actor_runtime/src/activation.rs:170-180 | evicting by smallest tick is trimming the list from its old end |
| `ActivationCache.ActivationCache.PutAtEpoch` | crates/actor_runtime/src/activation.rs:106-122 | installs exactly when nothing was invalidated since the epoch |
| `ActivationCache.ActivationCache.Invalidate` | crates/actor_runtime/src/activation.rs:186-192 | one key goes and the epoch moves |
| `ActivationCache.ActivationCache.DropPartition` | crates/actor_runtime/src/activation.rs:197-210 | exactly the lane's entries go, in any order of removal, and the epoch moves |
| `ActivationCache.ActivationCache.Sweep` | crates/actor_runtime/src/activation.rs:215-231 | exactly the expired entries go, and are counted |
| `Coherence.CoherentIff` | crates/infrastructure/src/mailbox/activation.rs:153-196 | in every interleaving each held version is current or lacks only appends not yet announced, if and only if every fill is fenced by its epoch and no append is announced by a promotion |
| `Coherence.PromotionsSafeIff` | crates/infrastructure/src/mailbox/activation.rs:153-196 | with fills fenced and promotions after commits, as the host has them, a run keeps the cache coherent, fills in flight included, exactly when each promotion is timely: what it stores has not been overtaken by an append already announced, and it ends with no fill of its key in flight that the epoch lets in and that read such an overtaken version |
| `Coherence.SafeIff` | crates/infrastructure/src/mailbox/activation.rs:153-196 | step by step: only an untimely promotion ends it |
| `Coherence.GuardedDelivery` | crates/infrastructure/src/mailbox/activation.rs:114-148 | under any policy whatever, a delivery served from the cache passes the freshness guard exactly when it was served the current version and nobody has appended since, so none commits on an old one |
| `Freshness.GuardExactIff` | crates/infrastructure/src/mailbox/activation.rs:114-148 | passing the guard means that the fold is of what the stream holds, in every run of appends and tombstones, exactly when no stream is ever erased |
| `Freshness.ErasedRegrown` | crates/infrastructure/src/deletion.rs:390-396 | any stream erased and grown again to the version it had passes the guard, whatever it now holds |
| `Coherence.RunCoherent` | crates/actor_runtime/src/activation.rs:71-122 | the invariant behind it, over every run of appends, invalidations, timely promotions, fills, lookups, lane drops and sweeps |
| `Coherence.QuietIsExact` | crates/actor_runtime/src/activation.rs:186-211 | with every append announced, everything held is the log's current version, timely promotions included |
| `Coherence.UnfencedFill` | crates/actor_runtime/src/activation.rs:102-127 | a plain put of an older read resurrects the old version |
| `Coherence.RacingPromotion` | crates/infrastructure/src/mailbox/activation.rs:168-191 | a promotion's get and put with an announced append in between do too |
| `EventLog.AppendConflictsIff` | crates/infrastructure/src/persistence/event_store.rs:74-138 | an append is refused exactly when a version it wants is taken, and otherwise changes exactly those versions |
| `EventLog.LoadPastEnd` | crates/infrastructure/src/persistence/event_store.rs:161-198 | at or past the end nothing clashes and a reader sees the events added |
| `EventLog.EventStore.Append` | crates/infrastructure/src/persistence/event_store.rs:74-158 | all events or none |
| `EventLog.EventStore.Load` | crates/infrastructure/src/persistence/event_store.rs:161-198 | business events in version order, technical rows counted in the version only |
| `EventLog.EventStore.Flush` | crates/infrastructure/src/mailbox/flush.rs:96-140 | append by append, the first clash undoing everything |
| `Staging.StagingRefines` | crates/application/src/staging.rs:59-88 | for every adaptive handler whose appends are on time, the stage gives the same answers as the store and its flush leaves the same log |
| `Staging.AppendStandsIff` | crates/application/src/staging.rs:59-88 | on a gapless stream, being on time is exactly what an append needs for that |
| `Staging.FlushGoesThroughIff` | crates/infrastructure/src/mailbox/flush.rs:96-140 | whatever was staged, on whatever streams: the flush goes through exactly when every wanted version is free and none is wanted twice, and then fills exactly those versions, each with the event that wanted it |
| `Staging.FlushSucceedsIff` | crates/infrastructure/src/mailbox/flush.rs:92-140 | and for appends that chain, as a handler makes them on gapless streams, that is when no other writer extended a stream the delivery wrote |
| `Staging.StagingEventStore.Load` | crates/application/src/staging.rs:78-88 | the overlay loop computes the overlaid events and version |
| `Staging.StagingEventStore.Append` | crates/application/src/staging.rs:61-76 | buffers, and answers as the store would |
| `Staging.StagingEventStore.TakeStaged` | crates/application/src/staging.rs:46-48 | hands the buffer over and empties it |
| `ProcessState.ByCartFaithful` | crates/application/src/staging.rs:128-136 | by the primary key the buffer always reads as the table would after the upserts |
| `ProcessState.ByIntentFaithfulIff` | crates/application/src/staging.rs:138-146 | by the payment intent it does after every upsert exactly when no upsert moves an existing run to another intent |
| `ProcessState.StagingPaymentProcessState.GetByIntent` | crates/application/src/staging.rs:115-146 | the newest buffered row of the intent, else the table's |
| `Pricing.PriceCart` | crates/application/src/pricing.rs:46-107 | the live pricing loop computes the cart's price, or its rejection |
| `Pricing.PriceCartAt` | crates/application/src/pricing.rs:140-206 | the coordinate's pricing loop, labels from the live catalog |
| `Pricing.SelectOptions` | crates/application/src/pricing.rs:70-88 | every selected option resolved, in the cart's currency, and summed |
| `PricingLaws.PricedIff` | crates/application/src/pricing.rs:52-107 | a cart is priced exactly when it has a line and every line resolves in the first one's currency; the total is the sum over the lines |
| `PricingLaws.RejectionNamesFirst` | crates/application/src/pricing.rs:36-40 | a rejection names the first line that does not |
| `PricingLaws.Coherent` | crates/application/src/pricing.rs:92-124 | line totals add up to the total, which is the breakdown's, in one currency; the payout legs share it out without remainder |
| `PricingLaws.Additive` | crates/application/src/pricing.rs:46-107 | two carts in one are priced exactly when both are and share a currency, at the sum of their totals |
| `PricingLaws.Reordered` | crates/application/src/pricing.rs:46-107 | reordering the lines changes neither whether a cart is priced nor its total |
| `PricingLaws.QuotesEqualIff` | crates/application/src/pricing.rs:126-206 | the two resolutions of a line are equal exactly when catalog and coordinate agree on the prices it uses: the catalog cannot resolve the line itself, or unit price and each selected option's price are the same |
| `PricingLaws.EquivalentIff` | crates/application/src/pricing.rs:126-206 | for a cart the live pricer accepts, the coordinate prices it the same exactly when they agree on every line; for one it rejects, exactly when the coordinate's first bad line names the same offer; agreement gives both |
| `PricingLaws.SnapshotPrices` | crates/application/src/pricing.rs:218-263 | through the snapshot a cart prices as through the live port for its restaurant, and is rejected on the first line for any other |
| `CatalogAsOf.HeadPricingIff` | crates/domain/src/catalog_as_of.rs:239-254 | every cart of a catalog is priced at the head's own coordinate as the live pricer prices it, exactly when its first and its last word on every offer charge the same: unit price, and each selectable option in the offer's currency |
| `CatalogAsOf.LinesAgreeIff` | crates/domain/src/catalog_as_of.rs:206-231 | per offer, every line resolves alike exactly when the first offer's price and first-match option prices are the last offer's price and last-wins option map |
| `CatalogAsOf.ViewIsFirst` | crates/application/src/queries.rs:254-301 | walking the tree takes the first offer of the identity and the lists it links |
| `CatalogAsOf.NarrowIsLast` | crates/domain/src/catalog_as_of.rs:206-231 | folding to prices takes the last one and the last price of each option |
| `CatalogAsOf.UnambiguousAgrees` | crates/domain/src/catalog_as_of.rs:206-231 | a catalog where no identity means two prices meets it |
| `CatalogAsOf.PricedAtHead` | crates/domain/src/catalog_as_of.rs:239-254 | so on such a catalog pricing at the head's own coordinate is live pricing |
| `CatalogAsOf.OneLineCharges` | crates/application/src/queries.rs:254-301 | for a line without options the live pricer charges the offer's first price and the coordinate its last |
| `CatalogAsOf.AmbiguousDiffers` | crates/application/src/commands.rs:4083-4111 | so a catalog that an import gives, an offer listed twice, is charged at its first price by the one and its last by the other |
| `CatalogAsOf.ViewIs` | crates/application/src/queries.rs:254-301 | the walk finds an offer exactly when a product has one, with its price and the lists it links |
| `CatalogAsOf.NarrowIs` | crates/domain/src/catalog_as_of.rs:206-231 | the narrowed map has exactly the offered identities, each at the price of some offer of that identity |
| `Credit.BooksBalanceIff` | crates/application/src/commands.rs:2515-2570 | over every interleaving of grants, debits, replays and crashes of non-negative amounts the balance is granted less consumed and never negative and no claim is granted twice; no order is debited twice or forgotten exactly when the stream is empty or opens with a grant, and all that can stand first instead is a debit of nothing |
| `Credit.BooksBalance` | crates/application/src/commands.rs:2903-2946 | in particular when every debit is of a positive amount, as checkout's are |
| `Credit.EmitKeepsBooksIff` | crates/domain/src/customer_credit.rs:47-77 | what a handler emits keeps the books exactly when it is a grant, a debit of something, or a debit on a ledger that exists |
| `Credit.EmptyDebitRepeats` | crates/domain/src/customer_credit.rs:68-73 | what breaks them: a debit of nothing before any grant is recorded again and again |
| `Checkout.RetryStableIff` | crates/application/src/commands.rs:2572-2595 | a retry at the same gross applies the same credit whatever happens to the ledger between, exactly when the order was debited, there is nothing to cover, or the ledger is in another currency |
| `Checkout.UnpinnedMoves` | crates/application/src/commands.rs:2572-2595 | where it is none of these, one more grant or one more order's debit changes what a retry applies |
| `Checkout.ChargeAndDebitIff` | crates/application/src/commands.rs:2903-2946 | an attempt that goes through charges and debits the gross between them exactly when the order was not debited by then or by the same amount |
| `Checkout.OverlapMisses` | crates/application/src/commands.rs:2903-2946 | two attempts that overlap, a grant between their reads: both go through, and the one whose debit is the replay falls short of the gross by the grant, or exceeds it by the grant when the later reader debits first |
| `Checkout.SequentialAttemptsIff` | crates/application/src/commands.rs:2903-2946 | attempts that do not overlap conserve the gross exactly when it has not fallen below an earlier debit |
| `Checkout.FallenGrossMisses` | crates/application/src/commands.rs:2572-2595 | an attempt whose gross has fallen below the earlier debit charges nothing, and the rest of that debit is in neither |
| `Checkout.PlaceOrderProcess.PlaceOrder` | crates/application/src/commands.rs:2823-3020 | single flight per cart; past it, unpriced exactly when the cart does not price, with that rejection, and declined exactly when the gateway declines; charge plus credit is the frozen gross; a failed attempt, one that loses its debit to a version conflict among them, debits and records nothing |
| `Checkout.PlaceOrderProcess.Charge` | crates/application/src/commands.rs:2903-3020 | credit read, gateway, the debit's load and save, and the two records, with other handlers on the ledger before and between; declined exactly when the gateway declines |
| `Checkout.AnswersIff` | crates/application/src/commands.rs:2903-2946 | which leaves one answer: insufficient exactly when the ledger the debit loads does not cover it, a version conflict exactly when somebody appended between its load and its save, and otherwise the order goes through |
| `Checkout.SettledIsSpent` | crates/application/src/commands.rs:2539-2570 | an attempt that goes through leaves the order debited as a debit on the ledger it loaded would, whoever commits in between |
| `Checkout.ChargedIsCoherent` | crates/application/src/commands.rs:2843-2966 | in both positions of the quote guard the frozen lines, total and breakdown say one number |
| `Arbiters.ReserveFirstIff` | crates/application/src/commands.rs:1786-1817 | in every interleaving, crashes included, facts name one holder per credential and per label, if and only if handlers reserve before they append |
| `Arbiters.NeverReassigned` | crates/application/src/commands.rs:440-475 | what is once reserved, released since or not, is never in another holder's fact |
| `Arbiters.BornOnce` | crates/application/src/commands.rs:3237-3306 | one accepted invitation yields one membership at most, on its own stream; a rider is registered once |
| `Arbiters.AddressesDistinct` | crates/application/src/commands.rs:440-475 | no two restaurants have one current label |
| `Arbiters.OrphanRedriven` | crates/application/src/commands.rs:1776-1785 | after a crash between reserving and appending, the claimant's resubmission is recorded, for a rider, a member or a label alike, and nobody else's ever is |
| `Arbiters.AppendFirst` | crates/application/src/commands.rs:1781-1785 | the run that puts two riders on one credential when the order is turned round |
| `Arbiters.InvPreserved` | crates/application/src/commands.rs:3145-3306 | every statement of every handler keeps each fact backed by its reservation |
| `Arbiters.Reservations.Reserve` | crates/application/src/behaviour_support.rs:693-710 | won exactly when the key is then the claimant's; nobody's holding changes |
| `Arbiters.Reservations.Release` | crates/application/src/behaviour_support.rs:792-797 | a release frees nothing |
| `Mailbox.OneOutcome` | crates/actor_client/src/mailbox.rs:526-577 | of all withdrawals and promotions of a scheduled occurrence, over any run, one has an effect if it does not stay scheduled and none if it does |
| `Mailbox.SpentIsFrozen` | crates/actor_client/src/mailbox.rs:552-560 | a promoted, terminal or cancelled row is never rewritten by a declaration, never rescheduled, and a cancelled one never delivered |
| `Mailbox.KeepKeepsFirst` | crates/actor_client/src/mailbox.rs:546-550 | under Keep the first time and payload survive any number of declarations and all that follows |
| `Mailbox.InPlaceTakesLast` | crates/actor_client/src/mailbox.rs:539-545 | under InPlace the last declaration stands while the occurrence is pending |
| `Mailbox.MemMailbox.Schedule` | crates/actor_client/src/mailbox.rs:526-562 | the reschedule policy machine, row and answer |
| `Mailbox.MemMailbox.CancelScheduled` | crates/actor_client/src/mailbox.rs:564-577 | withdraws exactly a row still scheduled |
| `Mailbox.MemMailbox.Insert` | crates/actor_client/src/mailbox.rs:483-505 | a taken identity changes nothing and answers with the row's status and hash |
| `Mailbox.MemMailbox.InsertMany` | crates/actor_client/src/mailbox.rs:369-381 | reports exactly the identities that were new, each row the first of its identity |
| `Mailbox.FirstInserted` | crates/actor_client/src/mailbox.rs:369-381 | of the entries of one new identity the first becomes the row |
| `Mailbox.MemMailbox.EnqueueFacts` | crates/actor_client/src/enqueue.rs:329-341 | one refused fact refuses the batch; a fact is flagged exactly when its identity was not on the mailbox before the call |
| `Mailbox.BulkAgreesIff` | crates/actor_client/src/enqueue.rs:297-341 | flags and single door agree on the whole batch exactly when it repeats no new identity |
| `Mailbox.MemMailbox.EnqueueFact` | crates/actor_client/src/enqueue.rs:225-233 | door checks, insertion and replay-or-conflict answer of one fact |
| `Mailbox.MemMailbox.ScheduleMapped` | crates/actor_client/src/enqueue.rs:432-451 | replay or conflict of a spent occurrence by its payload |
| `Sources.InboundIdentityIff` | crates/actor_client/src/enqueue.rs:198-204 | for any set of source names, two facts of them share an identity only when they are one source's same event, exactly when no name in the set is another one followed by a colon and anything |
| `Sources.DeclaredSourcesUnprefixed` | crates/application/src/generated/process_managers.rs:26-40 | adapter names and the frozen door identities of routed steps, whatever they are called, are such a set |
| `Sources.RepositorySourcesInjective` | crates/application/src/generated/process_managers.rs:34-40 | the repository's own sources in particular |
| `Sources.InboundIdentityClash` | crates/actor_client/src/enqueue.rs:198-204 | with names that run on, two events are one |
| `Entries.InboundEntries` | crates/actor_client/src/enqueue.rs:336-337 | all facts built, or the first refusal |
| `Routing.StablePartition` | crates/actor_client/src/partition.rs:15-52 | the byte loop computes the hash fold, and the lane is within the width and a SMALLINT |

## Left out

- Worker.MailboxWorker.DrainLane: rows inserted, promoted or requeued on the lane while it drains are excluded, as its termination needs, and with it for the batch and the row loop inside; `Protocol` has them.
- Balance.StealStepConverges: a census and the steal it decides are one step, and no lease runs out meanwhile; `Balance.StaleStealIff` says what is left of it otherwise.
- RunLoop.Run: passes, beats and deliveries take no time and do not fail.
- Pacing.PoisonBound: one drainer; two owners that both believe advance the counter faster, which `Protocol` allows.
- Coherence.CoherentIff: streams only grow; the deletion engine, which erases them, is in `Freshness` alone.
- Coherence.GuardedDelivery: streams only grow, as above.
- Staging.FlushSucceedsIff: for streams without gaps and appends that chain, the general condition being `Staging.FlushGoesThroughIff`; loads of streams the delivery does not write are not validated by the flush, nor here.
- ProcessState.ByIntentFaithfulIff: for the unique payment intent; the lookup by order has no uniqueness rule to rely on.
- Checkout.PlaceOrderProcess.PlaceOrder: the guards before the single-flight check, the orderability check of each line and the verification of a quote's signature are not modelled; the quote guard is open with a verified coordinate, or closed. Totals are taken to be non-negative, as the source's clamp demands.
- Arbiters.BornOnce: the UUIDv5 of an invitation is taken to be injective and apart from every other membership identity used.
- Sources.InboundIdentityIff: the UUIDv5 of the name is taken to be injective, and the payload hash to be the payload.
- Integer widths: attempts, versions, positions, cents and byte totals are unbounded; only the routing hash wraps, as the code's does.
- The retention sweep that deletes old terminal rows, and the cutover that deletes registry rows to change a keyspace's width.
- The release of lanes at shutdown as a loop; each release is a step of `Protocol` and a method of `Database`.
- SQL text, row locks, connection pools, the async runtime, tracing, metrics and the listener behind the push flag.
- Malformed catalog nodes, stock, availability and option-selection rules.
- The process managers' legs, the service-hours window, the invitation's own lifecycle and the token check before a grant by invitation.
- The command handlers that load, check one condition and append.
- The status bus and the operation watch.
