# Blockwarden, modelled and proved in Dafny

Blockwarden watches EVM chains for events, relays transactions from KMS-held keys and delivers what happened to webhooks
and other channels. This project models the parts of it that decide something under concurrency, crashes and lying or
lagging nodes, and proves what they promise.

`dafny verify dfyconfig.toml` checks everything. A module is one part of the system:

| files | part |
|---|---|
| `RelayerRecords`, `RelayerEvents` | the transaction record, the sweeper's expressions over it, and every write made to it |
| `RelayerInvariants`, `RelayerRuns`, `RelayerLimits`, `RelayerLookups`, `RelayerReplacement`, `RelayerHistory` | what any sequence of writes to one record keeps |
| `RelayerNonces` | what becomes of each nonce, on a small table |
| `RelayerProtocol`, `RelayerSafety`, `RelayerBehaviours`, `RelayerWalks` | all records, counters, signer runs, sweeps, sends and receipt denials together, and their refinement of the nonce table |
| `RelayerStore`, `RelayerRefusal`, `RelayerSigner`, `RelayerSweeper`, `RelayerSubmit`, `Spend` | the code: classes whose every write and send is a step of the protocol |
| `RelayerEffects` | what each write leaves for the decisions after it |
| `Fees` | replacement fees |
| `MonitorProtocol` | the monitor's table under every atomic write of any number of polling cycles |
| `Monitor`, `FetchLogs`, `Match`, `MatchKeys` | the durable and fast scans, adaptive log reading, ordinals, and the keys both scans give a match |
| `DueIndex`, `Deliveries`, `DeliveryPipeline`, `Dispatch` | the sharded due index, delivery records, sender, sweep and dispatcher |
| `MatchDeliveries` | from the monitor's table to the deliveries of a match |
| `Der`, `Conditions` | the signature codec, and the condition-path checker against the run-time resolver |

## How it is modelled

**Concurrency.** The stores are maps changed by conditional writes. Every call into a store first lets other invocations
take any number of steps (`Others`); its body is empty and only its contract is used, so a caller is verified against every
environment that keeps the contract. For the relayer and the monitor the contract is: the ghost `World` moves by steps of
`RelayerProtocol.Step` or `MonitorProtocol.Step`, and each call of ours is one such step. What holds of every sequence of
steps is proved once, from the empty table on. A step of a sweep or a cycle that depends on what it found out before is
allowed only if it did: a write that says which hashes were denied needs the denials, and a cursor may move only over matches
its cycle has written. For the deliveries the contract is an invariant and a relation between the states before and after. A
crash is a run that stops between two steps.

**Causes.** What an invocation is told (`Store.heard`: receipts, nonces, fees, estimates, pauses) and what goes wrong for it
(writes that were not reported as done, late readings of the clock, nodes that lag or fail, queues that do not take a message)
is logged in ghost state by the members that stand for the outside. A method that ends early, throws or skips says which of
those it had, and a decision that rests on an answer says that the answer was given. So a body that does nothing, asks nothing
or gives up without a reason does not meet its contract.

**Nodes, clocks, keys.** Every node answer is arbitrary. Times are integers in milliseconds, and a deadline may pass
anywhere. Signed bytes are any number and hash to it: keccak, SHA-256 and HMAC are taken as injective. A thrown error is a
result (`Threw`, `None`), and a save whose answer was lost throws although it went through.

**Assumptions taken from the deployment.** The queue's message group serialises the signer runs of one signer. A node whose
head had reached a final range, both before and after it read the logs, sends the range's canonical logs, in any order and with any copies; any other may send
logs of any blocks ever mined. A block's hash determines its number and its logs. The event decoder, a library, makes an
array of a tuple with an unnamed component and a plain object of any other, and of components of one name the last
assigned stays; indexed inputs are assigned first. Only `DailySpend` and `RelayerSubmit.DailySpendIsCapped` assume a policy that does not change, and say so in their
preconditions.

## What the code does not promise

- At most `MAX_ATTEMPTS` unrefused signatures is not an invariant: the limit guards signing, and a revival can pass it.
  `RelayerLimits.TheLimitIsPassed` is a run that ends with more, and `RelayerLimits.PassesTheLimit` says exactly which
  writes pass it. The size bounds hold all the same.
- A delivery's `attempts` can pass 8 by claims made again after a lapse (`Deliveries.ClaimsPassTheLimit`). The bound holds
  for the statuses between claims (`Deliveries.EveryImageIsGood`).
- A claim is guarded by the version, not by the lease, so the same body may be sent twice. Nothing here says otherwise.
- `bumpFees` can miss a usable pair when the previous tip is above the previous max fee
  (`ReplacementFees.AnInvertedPairIsMissed`). It does so exactly when the least replacement fits the cap and its tip is
  above the raised max fee, but not above the cap's (`ReplacementFees.BumpFeesOnInvertedPair`).
- The due pages are oldest first, and all but the last full, only while no query stops short of its limit for the size of its
  answer (`DueIndex.ShortQueriesBreakTheOrder`). `DueIndex.ListDuePage` and `DueIndex.OldestFirstExactly` say exactly which
  pages are full and which are the oldest of what is left. Every due entry is listed once either way.
- A status change numbered past 9999 gets no delivery (`DeliveryDispatch.PastTheWidthThereIsNone`), and one whose payload is
  over the size cap gets none either.
- The compiler's verdict on a condition path can be wrong. It checks the first component of a name where the decoder keeps
  the last assigned (`ConditionPaths.WarnedPathResolves`), it takes every tuple for an object
  (`ConditionPaths.UnnamedComponentMisleads`), and it knows nothing of `__proto__`. `ConditionPaths.WalkForetells` and
  `ConditionPaths.CheckFieldForetells` say exactly when it is right on a value; where the names on the way are single and
  all there, it always is (`ConditionPaths.PlainFieldIsKept`).
- `encodeDerSignature` loses the last hex digit of a number of 2^256 or more whose hex text is odd, so what it prints can
  parse to another signature (`DerCodec.TooLargeReadsAsAnother`). Printing and parsing is the identity exactly for numbers in
  the curve's order (`DerCodec.ParseAfterEncode`).
- The relayer remembers an answer only once it is saved. A crash between a send and its save loses the answer, and the
  statements about refusals are about recorded answers.

## Model

| member | source | states |
|---|---|---|
| RelayerRuns.EveryImageIsGood | services/relayer/src/sweeper.ts:67-81 | in every image of every run: at most 64 attempts, 16 with bytes, 512 retired hashes and 4 abandoned attempts; every unrefused attempt has its bytes; each status has its shape |
| RelayerInvariants.GoodStep | services/relayer/src/sweeper.ts:457-482 | every kind of write keeps those bounds and shapes |
| RelayerInvariants.ReplacedKeepsBounds | services/relayer/src/sweeper.ts:457-482 | dropping, stripping and signing one more stays within every bound |
| RelayerInvariants.StripHolds | services/relayer/src/sweeper.ts:635-642 | stripping keeps every attempt, hash and answer, takes bytes only from refused attempts, and frees as many as asked down to the unrefused ones |
| RelayerInvariants.SigningIsLimited | services/relayer/src/sweeper.ts:430-436 | nothing is signed with 10 unrefused signatures, nor without room for a dropped hash |
| RelayerInvariants.RevivalPassesTheLimit | services/relayer/src/sweeper.ts:359-366 | a revival adds an unrefused signature whatever their number |
| RelayerLimits.PassesTheLimit | services/relayer/src/sweeper.ts:359-366 | from within the limit a write ends above 10 unrefused signatures exactly when it revives refused bytes that have more refused copies than there is room for; at a full count exactly the revivals do |
| RelayerLimits.TheLimitIsPassed | services/relayer/src/sweeper.ts:239-249 | a run ends above the limit: a refused replacement, nine more, the refused one mined, reorged out and taken again |
| RelayerLimits.SignedWithin | services/relayer/src/sweeper.ts:430-436 | signing adds one and stays within the limit |
| RelayerInvariants.SameHashesWhileWalking | services/relayer/src/sweeper.ts:576-578 | a save that leaves a walk's index leaves the hash list it points into |
| RelayerInvariants.HashesStay | services/relayer/src/records.ts:103-105 | only signing and giving up change the hashes, and no write takes back an acceptance |
| RelayerRuns.NoHashIsForgotten | services/relayer/src/sweeper.ts:457-481 | attempts and retired hashes together are exactly the hashes ever saved at the current nonce |
| RelayerRuns.DroppingKeepsHashes | services/relayer/src/sweeper.ts:461-470 | dropping an attempt loses no hash |
| RelayerRuns.TakenIsForGood | services/relayer/src/refusal.ts:30-35 | once a save records that a node took a signature, the transaction may be mined for ever: no refusal fails it |
| RelayerRuns.RefusedMeansNeverTaken | services/relayer/src/refusal.ts:11-27 | a transaction failed by a refusal was never recorded as taken, and all its signatures were refused |
| RelayerRuns.FailureHasCause | services/relayer/src/refusal.ts:55-62 | a failed transaction was refused, its nonce was used, or its dependency failed before it had a nonce; failed is final |
| RelayerLookups.ProgressIsPrefix | services/relayer/src/sweeper.ts:266-268 | what the writes of one walk say it asked so far is the list up to the saved index, however the walk was cut |
| RelayerLookups.NonceUsedOnlyAfterAFullWalk | services/relayer/src/sweeper.ts:301-325 | a nonce-used failure comes after depth and age, and the writes of its walk together name every hash ever saved at the nonce, the stored attempts twice if the walk was resumed |
| RelayerWalks.NonceUsedMeansDenied | services/relayer/src/sweeper.ts:301-325 | in every interleaving: every hash ever saved at the nonce was denied by every URL, in the order of the walk, to sweeps that read the record after the walk began, and the stored attempts again after the first pass if a sweep resumed it |
| RelayerWalks.EveryWalkIsLogged | services/relayer/src/sweeper.ts:266-268 | what a walk has asked so far, in however many sweeps, is in the log of denials in its order |
| RelayerWalks.DenialsWereAnswered | services/relayer/src/chain.ts:193-199 | a denial is in the log because in one earlier step a sweep of that record asked every URL and all of them had no receipt |
| RelayerWalks.WalksStep | services/relayer/src/sweeper.ts:576-578 | every step of the protocol keeps the walks in step with the log |
| RelayerLookups.TheWaitIsUnbroken | services/relayer/src/sweeper.ts:292-296 | the wait began with a sighting at that head and time, and no free reading or receipt came since |
| RelayerReplacement.SignedReplacementIsSound | services/relayer/src/sweeper.ts:417-455 | what replace signs is within the cap, replaces the live signature for the node and raises a fee over the latest; with none live, no covering refusal has bytes left |
| RelayerReplacement.BumpLiveIsUsable | services/relayer/src/sweeper.ts:422-429 | also climbing from a refused signature gives fees the node takes in place of the live one |
| RelayerReplacement.StoredBytesAreTheHighestCover | services/relayer/src/sweeper.ts:444-452 | stored bytes are chosen only with nothing live, and they are the highest covering refusal that has bytes |
| RelayerReplacement.StoredExactly | services/relayer/src/sweeper.ts:439-452 | with every signature refused, stored bytes go out exactly when some with bytes have fees at or above the wanted ones in both fields, and either the wanted fees are at the cap or those were below it; and such bytes are what goes out |
| RelayerReplacement.SignedExactly | services/relayer/src/sweeper.ts:443-456 | what is signed otherwise: the wanted fees, or, where only stripped signatures stand against them, the highest of those again under the cap |
| RelayerReplacement.RefusedIsSentOrFull | services/relayer/src/sweeper.ts:437-467 | with every signature refused something goes out, unless the stored attempts and the retired hashes are both full |
| RelayerReplacement.FeeCapHasCause | services/relayer/src/sweeper.ts:417-436 | a live signature is not replaced for the fee cap only with ten unrefused ones, a full record without a refusal, or no pair under the cap that a node would take |
| RelayerReplacement.LiveIsReplaced | services/relayer/src/sweeper.ts:417-467 | without such a cause it is replaced, unless the retired hashes are full |
| RelayerReplacement.BlockingIsHighestFirst | services/relayer/src/sweeper.ts:604-616 | the covering refusals come highest fees first |
| RelayerReplacement.EverySignatureIsUnderPolicy | services/relayer/src/policy.ts:119-127 | under one policy every signature a record ever holds is within the fee cap |
| RelayerHistory.EveryChangeExactlyOnce | services/actions/src/events.ts:70-83 | over a run of any length the changes of its saves are numbered 0, 1, 2 and on, one for each status it went through, through truncation |
| RelayerHistory.ChangesOfStep | services/relayer/src/records.ts:160-166 | a save yields one change with the next number if it changed the status, and none otherwise |
| RelayerHistory.FilterKeepsTail | services/actions/src/events.ts:32-42 | entries from the old count on are the last entry, or none |
| RelayerNonces.EveryTableIsOk | services/relayer/src/store.ts:296-345 | in every history each live record's nonce is its own, and each handed-out nonce is below its counter with one fate |
| RelayerNonces.HeldByExactlyOne | services/relayer/src/store.ts:298-330 | a nonce is held by a record exactly when that record is the one live record at it |
| RelayerNonces.NextIsNew | services/relayer/src/store.ts:298-303 | the counter's next nonce was never handed out or sent at, and is above all that were |
| RelayerNonces.GivenUpForGood | services/relayer/src/signer.ts:152-167 | counters never go back, and a given-up nonce stays so with one send ever, answered nonce too low |
| RelayerNonces.FillerKeepsItsNonce | services/relayer/src/refusal.ts:44-89 | a filler has its nonce for good: live, used by the chain, or refused; what it fills lost that nonce to it |
| RelayerNonces.MoveKeeps | services/relayer/src/store.ts:240-345 | every nonce operation keeps the table |
| RelayerSafety.WorldStep | services/relayer/src/signer.ts:57-175 | every step of a signer run, sweep, submission or crash keeps the whole invariant |
| RelayerSafety.StepMoves | services/relayer/src/store.ts:240-345 | every step of the relayer is a move of the nonce table |
| RelayerSafety.RunsWorkApart | services/relayer/src/signer.ts:60-61 | two signers' runs are never at work on one nonce |
| RelayerSafety.SweepSendsElsewhere | services/relayer/src/signer.ts:152-153 | a sweep never sends at a nonce a run took and is still at work on |
| RelayerSafety.SameVersionSameImage | services/relayer/src/store.ts:220-237 | a copy with the stored version is the stored record |
| RelayerBehaviours.EveryNonceIsAccountedFor | services/relayer/src/store.ts:273-345 | in every interleaving a handed-out nonce is held by exactly one unfailed record, given up, used by the chain or its filler refused; the last three for good |
| RelayerBehaviours.RefusedHandsItsNonceToOneFiller | services/relayer/src/refusal.ts:64-89 | a refused relay transaction's nonce goes to exactly one filler, which has it ever after |
| RelayerBehaviours.CountersNeverGoBack | services/relayer/src/store.ts:273-287 | no interleaving lowers a nonce counter |
| RelayerBehaviours.GivingUpIsSafe | services/relayer/src/signer.ts:145-167 | in every behaviour a run gives up only a nonce it took, after its one send at it was answered nonce too low and, in a step since, a node had no receipt for each of its signatures; fewer than three times, and never a filler's |
| RelayerBehaviours.UnfoundWasAskedFor | services/relayer/src/signer.ts:145-151 | what a run remembers as not found a node was asked for in an earlier step, on the same record and after the same send |
| RelayerBehaviours.TakingIsSafe | services/relayer/src/signer.ts:102-110 | in every behaviour the nonce a run takes is larger than every one handed out till then, and nothing was sent at it |
| RelayerBehaviours.EverySentHashIsKnown | services/relayer/src/sweeper.ts:593-595 | in every world of every behaviour: whatever was sent at the nonce a record has then is among the hashes its walks ask for |
| RelayerBehaviours.BehaviourIsHistory | services/relayer/src/store.ts:240-345 | the relayer refines the nonce table |
| RelayerStore.Store.SaveTx | services/relayer/src/store.ts:220-237 | a save over the version read is one protocol step; one that is not reported as done finds the stored version another |
| RelayerStore.Store.FailWithFiller | services/relayer/src/store.ts:240-270 | the failed record and its filler are written together or not at all |
| RelayerStore.Store.RaiseNonce | services/relayer/src/store.ts:273-287 | the counter is at least the nonce given afterwards; after what others did, the raise is the one step taken |
| RelayerStore.Store.AssignNonce | services/relayer/src/store.ts:298-345 | the counter's next at that moment, taken in one step; it gives up only for a record that changed, a counter that moved or transactions that overlap |
| RelayerStore.Store.CreateTx | services/relayer/src/store.ts:163-217 | record, claim and reservation are written together; a refusal for the cap or a duplicate means the cap or the claim stands in the way |
| RelayerStore.Store.GetTx | services/relayer/src/store.ts:147-152 | what is read is the stored image |
| RelayerStore.Store.GetIdempotency | services/relayer/src/store.ts:154-159 | the claim as stored, and earlier claims stay |
| RelayerStore.WriteIsAStep | services/relayer/src/store.ts:220-270 | a write of an unchanged version keeps table, protocol state, reservations and claims in agreement |
| RelayerStore.ReservedStep | services/relayer/src/store.ts:161-162 | nothing but a submission changes which transactions have reservations and claims |
| RelayerRefusal.Node.Send | services/relayer/src/signer.ts:120-121 | only whole signatures saved before are sent, and the send is logged with its answer |
| RelayerRefusal.Node.FindReceipt | services/relayer/src/chain.ts:193-199 | no receipt is found only when every URL answered that it has none, and just then the denial is logged for the sweep |
| RelayerRefusal.Node.GetReceipt | services/relayer/src/chain.ts:190-192 | one node's answer is what is heard, and a run that asks after a nonce too low remembers what had no receipt |
| RelayerRefusal.Verdict | services/relayer/src/chain.ts:194-198 | a receipt from any URL counts, none only when all deny, and otherwise the call throws |
| RelayerRefusal.Node.FirstReceipt | services/relayer/src/chain.ts:195-198 | going through the answers comes to that verdict |
| RelayerRefusal.Refusal.RefuseAttempt | services/relayer/src/refusal.ts:11-27 | fails the transaction only if it cannot be mined by the record, and otherwise only marks the attempt |
| RelayerRefusal.Refusal.FailRefused | services/relayer/src/refusal.ts:47-89 | a relay transaction fails together with a filler at its nonce, a filler alone |
| RelayerRefusal.FirstRefusalFails | services/relayer/src/signer.ts:170-172 | refusing a first send always fails the transaction |
| RelayerRefusal.FillerFor | services/relayer/src/refusal.ts:65-88 | the filler has the nonce and the pair of what it fills, and value 0 |
| RelayerSigner.Signer.ProcessTx | services/relayer/src/signer.ts:57-175 | every effect is a protocol step; submitted means a submitted image and a send, failed a failed image, skipped a record not queued; it waits, pauses or throws only for what it was told, a write that failed, a late clock or a third nonce too low |
| RelayerSigner.Signer.Pass | services/relayer/src/signer.ts:97-174 | one pass ends, or gives the nonce up and goes on with one reset more |
| RelayerSigner.Signer.TakeNonce | services/relayer/src/signer.ts:102-110 | the nonce is the counter's next when it is taken, not below the chain's pending one on a cold start, and the run remembers that it took it |
| RelayerSigner.Signer.SignFirst | services/relayer/src/signer.ts:111-118 | the signature is saved before anything is sent |
| RelayerSigner.Signer.SendLatest | services/relayer/src/signer.ts:120-121 | the saved signature is what goes out |
| RelayerSigner.Signer.SettleSend | services/relayer/src/signer.ts:122-143 | which image each answer leads to |
| RelayerSigner.Signer.HandleNonceTooLow | services/relayer/src/signer.ts:145-168 | every signature is asked for, in order, up to one that has a receipt; only with none is a nonce given up, one the run took and below two resets, and otherwise nothing but the status changes |
| RelayerSigner.Signer.AskForReceipts | services/relayer/src/signer.ts:145-151 | the loop hears no receipt for each signature before the one that has one |
| RelayerSigner.Signer.GiveUp | services/relayer/src/signer.ts:159-167 | signatures at the nonce stay as evidence without bytes, and the pair is reconciled again |
| RelayerSigner.Signer.CheckDependency | services/relayer/src/signer.ts:75-95 | goes on exactly with a confirmed success whose call does not revert, waits exactly while the dependency can change, and fails otherwise |
| RelayerSigner.SettledStays | services/relayer/src/records.ts:137-143 | a dependency found confirmed or failed is never written again |
| RelayerSubmit.Submitter.GasLimit | services/relayer/src/submit.ts:113-154 | the request's own gas limit or the estimate and a fifth; every refusal has its reason in the request, the dependency as stored or the estimate |
| RelayerSweeper.Sweeper.CheckSubmitted | services/relayer/src/sweeper.ts:255-340 | what a sweep does with a submitted transaction, each ending with what was asked and heard before it: the receipts of a walk in its order, the nonce, the URLs' answers |
| RelayerSweeper.Sweeper.CheckByReceipts | services/relayer/src/sweeper.ts:271-300 | a used nonce is noted only after a node denied every hash from where the walk took up, the stored attempts before the nonce was read; a free one is acted on only after all of those |
| RelayerSweeper.Sweeper.CheckByUrls | services/relayer/src/sweeper.ts:280-325 | the nonce is read first, and only a used one leads to the URLs |
| RelayerSweeper.Sweeper.WalkEveryUrl | services/relayer/src/sweeper.ts:301-325 | cut short it saves the position up to which every URL denied every hash to this sweep; gone through, it fails the transaction with them; an unanswered URL ends it with neither |
| RelayerSweeper.Sweeper.WalkAll | services/relayer/src/sweeper.ts:301-322 | the hashes denied to this sweep are the list from the start to the end, or to where time ran out |
| RelayerSweeper.Sweeper.AskAll | services/relayer/src/sweeper.ts:301-307 | each hash from the given start on is asked of every URL, in order; what went through was denied by all; the walk ends early only for a late clock, a receipt or a silent URL |
| RelayerSweeper.Sweeper.LookUp | services/relayer/src/sweeper.ts:272-277 | a node is asked for each hash from the given start on, in order: what it is told is no receipt for each before the end, then the receipt that came or the clock that was late |
| RelayerSweeper.Sweeper.StopLookup | services/relayer/src/sweeper.ts:576-578 | saves where the walk stopped |
| RelayerSweeper.Sweeper.NoteUsed | services/relayer/src/sweeper.ts:282-300 | the retired hashes are asked for in order, and only after all of them a used nonce is noted once and a later sighting clears the walk |
| RelayerSweeper.Sweeper.CheckPending | services/relayer/src/sweeper.ts:326-340 | a replacement is tried exactly for the next nonce when stuck or underpriced, at the estimate that was heard; what it sends is the decision on record and estimate, and what sent nothing sends the live signature exactly if the node said it does not know it |
| RelayerSweeper.Sweeper.ForgetSighting | services/relayer/src/sweeper.ts:326-330 | a nonce read as free ends the wait and the walk |
| RelayerSweeper.Sweeper.CheckMined | services/relayer/src/sweeper.ts:229-253 | a receipt that is gone or moved makes it submitted and sends the mined bytes if any are left; one deep enough confirms it |
| RelayerSweeper.Sweeper.MarkMined | services/relayer/src/sweeper.ts:390-408 | the receipt is saved and counts as an acceptance |
| RelayerSweeper.Sweeper.Rebroadcast | services/relayer/src/sweeper.ts:342-379 | only bytes the record has are sent, and what is saved follows the answer |
| RelayerSweeper.Sweeper.Replace | services/relayer/src/sweeper.ts:411-487 | what is done is what Decide says of the record and the node's estimate: that signature saved and sent, those stored bytes sent, or that flag set |
| RelayerSweeper.SameDecision | services/relayer/src/sweeper.ts:439-443 | the fee-cap flag saved first is in the way of nothing |
| RelayerSweeper.Sweeper.SignAndSend | services/relayer/src/sweeper.ts:471-486 | the replacement decided on is saved, and that signature then sent |
| RelayerSweeper.Sweeper.AfterReplacement | services/relayer/src/sweeper.ts:489-509 | what is saved for each answer |
| RelayerSweeper.Sweeper.RequeueIfStale | services/relayer/src/sweeper.ts:215-227 | exactly a stale transaction is written and gets a message |
| RelayerSweeper.Sweeper.FlagFeeCap | services/relayer/src/sweeper.ts:522-533 | the flag is the only change |
| RelayerSweeper.Sweeper.DropOldest | services/relayer/src/sweeper.ts:457-470 | the three updated variables are what the proofs about dropping speak of |
| RelayerSweeper.StripForRoom | services/relayer/src/sweeper.ts:635-642 | the counting loop of makeRoom is the recursive one the proofs use |
| RelayerSweeper.LastSentAt | services/relayer/src/sweeper.ts:623-625 | the greatest sending time of the attempts |
| RelayerEffects.AnswersAreNoted | services/relayer/src/records.ts:102-105 | after every write the attempts with the hash taken are accepted and those with the hash refused are refused for the reason given, only bytes taken again lose a refusal, and nothing else of an attempt changes |
| RelayerEffects.WantsABump | services/relayer/src/sweeper.ts:330-333 | a replacement is wanted exactly after an answer that called a signature underpriced, until one is signed, a receipt comes or refused bytes are taken |
| RelayerEffects.FlagsAre | services/relayer/src/sweeper.ts:522-548 | exactly which writes set and clear the two flags |
| RelayerEffects.RevivedIsLive | services/relayer/src/sweeper.ts:351-368 | bytes that were refused and are taken again are live |
| RelayerEffects.LastRefusalFails | services/relayer/src/refusal.ts:11-27 | with every other signature refused and none taken, a refusal fails the transaction |
| RelayerEffects.JustSentIsNotStuck | services/relayer/src/sweeper.ts:330 | a signature that just went out, for the first time or again, is not stuck before the threshold has passed |
| RelayerEffects.TheWaitIs | services/relayer/src/sweeper.ts:551-560 | after every write, when the wait of a used nonce is over: the depth from the first sighting and the age from the last |
| RelayerEffects.ReceiptIsKept | services/relayer/src/sweeper.ts:385-398 | the receipt saved is the one that came, and a reorg takes it away |
| RelayerEffects.StatusChangeIsDated | services/relayer/src/records.ts:160-166 | a change of status is the last entry of the history, with the time of the write |
| RelayerEffects.WaitingMeansUnsettled | services/relayer/src/records.ts:137-143 | a dependency is waited for exactly while some write can still change it, and is good exactly when confirmed with success |
| RelayerEffects.GivenUpIsFiled | services/relayer/src/signer.ts:156-167 | the last signatures made at a nonce given up are filed with it, refused and without bytes |
| RelayerEffects.UnrefusedAreCounted | services/relayer/src/sweeper.ts:430 | the count is that of the attempts without a refusal |
| RelayerEffects.OldestGoFirst | services/relayer/src/sweeper.ts:635-642 | no refusal keeps its bytes while a newer one loses them |
| RelayerEffects.OldestIsDropped | services/relayer/src/sweeper.ts:627-632 | the oldest refusal without bytes goes, and the oldest of all where each has bytes |
| DailySpend.WeiToGweiCeil | services/relayer/src/policy.ts:132-134 | the least gwei at or above the wei |
| DailySpend.WeiToGweiFloor | services/relayer/src/policy.ts:136-138 | the greatest gwei at or below the wei |
| DailySpend.ReserveKeepsBooks | services/relayer/src/store.ts:163-217 | a reservation the condition lets through keeps counters and totals in step, under the cap |
| DailySpend.DailyCapHolds | services/relayer/src/submit.ts:158-193 | the worst cases of all reservations of a day stay within the cap in wei, through the rounding |
| RelayerSubmit.DailySpendIsCapped | services/relayer/src/policy.ts:123-127 | let each transaction be mined as any signature it ever held: together they cost no more than the daily cap, and every relay transaction is in the sum |
| RelayerSubmit.Submitter.SubmitTx | services/relayer/src/submit.ts:84-210 | one transaction a key, reserved at its worst case and its message sent; a repeated request is answered with the first, another under the key refused; every other refusal has its reason |
| RelayerSubmit.Submitter.Replay | services/relayer/src/submit.ts:75-82 | the claimed transaction is there, and the answer depends on the request's hash |
| ReplacementFees.BumpFeesIsExact | packages/core/src/fees.ts:44-68 | succeeds exactly when some pair under the cap would be taken; gives such a pair, or the least that would do |
| ReplacementFees.BumpFeesOnInvertedPair | packages/core/src/fees.ts:44-68 | for any previous pair: it succeeds exactly when the node would take a pair the cap allows, except in one case: the least replacement fits the cap and its tip is above the raised max fee but not above the cap's; then such a pair exists and it fails |
| ReplacementFees.AnInvertedPairIsMissed | packages/core/src/fees.ts:44-68 | an inverted pair with a usable replacement that is not found |
| ReplacementFees.MinReplacementIsLeast | packages/core/src/fees.ts:12-31 | accepted is the same as at or above the minimum in both fields |
| ReplacementFees.ClimbIsLogarithmic | packages/core/src/fees.ts:44-68 | k bumps of one pair under one cap satisfy 9^(k-1) fee <= 8^(k-1) cap |
| ReplacementFees.ClampFees | packages/core/src/fees.ts:33-42 | within the cap, with the tip within the fee |
| ReplacementFees.ClampIsGreatest | packages/core/src/fees.ts:33-42 | the greatest pair within estimate and cap whose tip is within its max fee |
| ReplacementFees.BumpReachesTheEstimate | packages/core/src/fees.ts:44-68 | each bumped fee reaches the estimate and rises by an eighth, except where the cap, or for a tip the max fee, stops it |
| MonitorProtocol.CanonicalStaysFinal | services/monitor/src/store.ts:237-264 | in every interleaving of cycles from the empty table: a canonical match the durable cursor has passed has a final record ever after, and the cursor does not go back |
| MonitorProtocol.NonFinalIsNotCanonical | services/monitor/src/store.ts:266-292 | a record that is provisional or dropped belongs to no canonical match the cursor has passed |
| MonitorProtocol.EveryWorldIsOk | services/monitor/src/store.ts:137-292 | over every sequence of writes of any cycles: the cursor is the last saved, covers only final matches, and what each cycle remembers is true |
| MonitorProtocol.WorldStep | services/monitor/src/store.ts:148-292 | every atomic write keeps that, loses no record and makes none provisional again |
| MonitorProtocol.SaveCovers | services/monitor/src/store.ts:148-171 | a save over the version read covers only final matches, also when other cycles wrote in between |
| MonitorProtocol.ReachesEvolves | services/monitor/src/store.ts:148-292 | whatever other cycles do meanwhile, final stays final |
| Monitor.MonitorStore.SaveCursor | services/monitor/src/store.ts:148-171 | saved only over the version read, by a cycle that wrote every match it newly covers; one protocol step |
| Monitor.MonitorStore.WriteProvisional | services/monitor/src/store.ts:213-235 | never overwrites a record |
| Monitor.MonitorStore.WriteFinal | services/monitor/src/store.ts:237-264 | the record is final afterwards, and one that was stays as it is |
| Monitor.MonitorStore.DropOne | services/monitor/src/store.ts:275-290 | only a provisional record is dropped; what is dropped is no canonical match up to the cursor |
| Monitor.MonitorStore.DropStaleProvisional | services/monitor/src/store.ts:266-292 | whatever the lagging index lists, none of it is provisional afterwards, with other cycles writing in between, and nothing above the given block is dropped |
| Monitor.Poller.Poll | services/monitor/src/cycle.ts:86-277 | everything it does is protocol steps, and the cursor reported is its own, not behind the one it read nor the start block; it ends at the finalized block and at the head, and drops what the index lists far enough below the cursor, each unless a late clock, a lagging or failed read or a conflict is named |
| Monitor.Poller.DurableScan | services/monitor/src/cycle.ts:157-224 | writes before it moves the cursor, over logs only of nodes that had reached the range; stops short of the finalized block only with a cause; at most two ranges of a run are refused by a node with a fixed limit |
| Monitor.Poller.ScanRange | services/monitor/src/cycle.ts:176-206 | one range ends with the cursor at its end and every key of its canonical logs written, however it was halved, or early for a conflict, a deadline, a failure or a lagging node |
| FetchLogs.LogReader.FetchRange | services/monitor/src/cycle.ts:303-315 | logs are taken only when both heads had reached the range; any other answer is a lagging node |
| Monitor.Poller.WriteChunks | services/monitor/src/cycle.ts:187-203 | span, ceiling and lastFitted after a range follow from its chunks, and every chunk's matches are written |
| Monitor.Poller.WriteChunk | services/monitor/src/cycle.ts:187-191 | every match of a chunk's logs, deduped, matched and numbered, is written before the cursor moves over the chunk, and these are all the matches it then owes |
| Monitor.Poller.FastScan | services/monitor/src/cycle.ts:230-267 | reads without a gap from where the overlap starts, up to the head unless a cause is named; every match of the logs read has a record afterwards, and of a canonical block a read had in full every fast match has one under the key the durable scan gives it; the fast cursor ends at or below the head and is pulled back only to it |
| Monitor.PacedKeepsBounds | services/monitor/src/cycle.ts:192-202 | 1 <= span <= ceiling <= maxRange, and span at most twice what last fitted |
| Monitor.GrowsBack | services/monitor/src/cycle.ts:193-197 | a span that shrank doubles with each range read whole, up to the ceiling |
| Monitor.RefusalsStayFew | services/monitor/src/cycle.ts:158-206 | one refusal at the start, and one more once something fitted |
| FetchLogs.LogReader.Walk | packages/core/src/fetch-logs.ts:19-47 | at most 2n-1 fetches; chunks tile the range, or a prefix of it when it stops; the logs are theirs in order; it stops only for a late clock, a failed read, a lagging node or a callback that threw |
| FetchLogs.LogReader.WalkHalves | packages/core/src/fetch-logs.ts:35-40 | a refused range is read as its two halves in order, the second only after the first |
| FetchLogs.TilesConcat | packages/core/src/fetch-logs.ts:35-40 | two tilings one after the other tile the whole |
| LogMatching.DedupeLogs | packages/core/src/match.ts:11-19 | the loop with its seen set keeps the first copy of each log |
| LogMatching.DedupeKeepsEach | packages/core/src/match.ts:11-19 | exactly one copy of each log is kept |
| LogMatching.AssignOrdinals | packages/core/src/match.ts:21-40 | each match gets the number of its group before it in log order |
| LogMatching.KeyedMatches | services/monitor/src/cycle.ts:187-190 | every match of a read comes out once, with its ordinal in the set of matches |
| LogMatching.AheadIsOrdinal | packages/core/src/match.ts:31-38 | what is counted is the ordinal, whatever the order of the input |
| LogMatching.OrdinalIsLocal | services/monitor/src/cycle.ts:241-248 | an ordinal depends only on those logs of its own block and transaction that its rule takes |
| MatchKeys.KeysOfRange | services/monitor/src/cycle.ts:186-190 | in whatever order and with whatever copies a node sends a canonical range, its keys are those of its blocks |
| MatchKeys.AnyChunkingNamesAlike | services/monitor/src/cycle.ts:186-190 | however a canonical range is cut into chunks, keyed one by one they give the range's own keys |
| MatchKeys.FastAgreesWithDurable | services/monitor/src/cycle.ts:241-249 | a match of a canonical block the fast read has in full gets the key the durable scan gives it, whatever orphaned blocks, copies and other rules are around |
| MatchKeys.FastBlockIsNamedAlike | services/monitor/src/cycle.ts:241-249 | the fast keys of such a block are among those of the fast read and among those of the durable scan |
| MatchKeys.KeyNamesOneMatch | packages/core/src/ids.ts:3-10 | on a chain that has each transaction once, a key names one match |
| LogMatching.SplittingDoesNotCount | services/monitor/src/cycle.ts:186-190 | splitting a range at block boundaries changes no ordinal |
| LogMatching.OrderAndCopiesDoNotCount | packages/core/src/match.ts:9-19 | reordered or repeated logs change no ordinal |
| LogMatching.GroupIsNumbered | packages/core/src/match.ts:31-38 | in a group ordinals are distinct, below its size and in log order |
| LogMatching.EveryNumberIsTaken | packages/core/src/match.ts:31-38 | every number below the group's size is taken |
| DueIndex.WalkDue | services/actions/src/store.ts:159-194 | wherever the queries stop, walking the pages ends and gives every due entry once, each shard in its order; if none stops short of the limit, oldest first with every page but the last full |
| DueIndex.ListDuePage | services/actions/src/store.ts:161-194 | a page is in order and takes the next entries of each shard, and its cursor stands for what is left; it is full or the last exactly unless a query stopped short and all together gave too little |
| DueIndex.OldestFirstExactly | services/actions/src/store.ts:178-182 | a page is the oldest of what is left exactly when no shard's first unread entry is due before the page's last |
| DueIndex.ShortQueriesBreakTheOrder | services/actions/src/store.ts:166-182 | an index whose pages come out of order, with a page that is neither full nor the last |
| DueIndex.QueryAll | services/actions/src/store.ts:162-177 | what the four queries gave, and when it was all there is |
| DueIndex.SortedConcatIsMergeAll | services/actions/src/store.ts:178-181 | the stable sort of the shards' lists is their merge |
| DueIndex.MergeAllHolds | services/actions/src/store.ts:178-181 | the merge is in order and holds exactly the shards' entries |
| DueIndex.PageIsFirstOfMerge | services/actions/src/store.ts:162-182 | reading only the first `limit` of each shard gives the same page |
| DueIndex.SplitMergeAll | services/actions/src/store.ts:183-191 | what is left after a page is what is left of each shard |
| DueIndex.NextCursor | services/actions/src/store.ts:183-191 | each shard's start key is its last entry taken, or the one it had |
| Deliveries.EveryImageIsGood | services/actions/src/store.ts:106-153 | attempts count the claims of the present life; below 8 between claims; a due time exactly while something is outstanding |
| Deliveries.DeliveredIsFinal | services/actions/src/sender.ts:56-69 | a delivered delivery is never written again |
| Deliveries.OnlyRedriveRevives | services/actions/src/store.ts:149-153 | nothing but a redrive brings a dead delivery back |
| Deliveries.ClaimsPassTheLimit | services/actions/src/store.ts:112-124 | lapsed claims can take attempts past any number |
| Deliveries.IndexedWhileOutstanding | services/actions/src/store.ts:35-48 | the indexes never disagree with the record |
| Deliveries.OutstandingIsListed | services/actions/src/store.ts:159-194 | a delivery whose time has come is among what the due pages list |
| Deliveries.ListedExactlyWhenDue | services/actions/src/store.ts:159-194 | the due pages list a delivery exactly from the time of its next attempt on |
| Deliveries.ListedAfterWrite | services/actions/src/store.ts:97-153 | after each write: from the end of the lease, of the grace or of the backoff, and after an ending never |
| Deliveries.RedrivenIsReset | services/api/src/store.ts:373-409 | the API's update leaves the item the pipeline's reset would, in the same shard |
| Deliveries.DeliveryStore.Create | services/actions/src/store.ts:66-95 | a delivery is created once |
| Deliveries.DeliveryStore.Save | services/actions/src/store.ts:218-235 | writes only over the version read, with the index entries of the new record |
| Deliveries.DeliveryStore.RequeueDelivery | services/api/src/store.ts:373-409 | only a delivery that is dead at that moment is redriven, to its reset image, and it is due at once |
| DeliveryPipeline.Sender.ProcessDelivery | services/actions/src/sender.ts:52-113 | claimed until the end of its lease and then sent once, unless it is not there, over or of no known channel; the ending written is the send's, over the claim; skips and throws only with a cause; a dead-letter copy is made of dead deliveries alone, after the mark, and again when one is found dead |
| DeliveryPipeline.Sender.RecordOutcome | services/actions/src/sender.ts:116-169 | the record after the claim is delivered, dead for a permanent failure or used-up attempts, or failed and due after the backoff, with the send's error; a conflict leaves the outcome to the other |
| DeliveryPipeline.Reaper.SweepPage | services/actions/src/dispatcher.ts:218-241 | what is done for each delivery, in order: out of attempts the copy and then the mark, with attempts left the new due time and then the message, up to the call that failed; each count is the number of deliveries that came through, and the rest is no more than the writes and queues that failed |
| DeliveryPipeline.Reaper.Finish | services/actions/src/dispatcher.ts:220-228 | no delivery is marked dead by the sweep without its copy sent before |
| DeliveryDispatch.Dispatcher.DispatchRecords | services/actions/src/dispatcher.ts:158-205 | a batch stops at the first record that has to come again, named if it can be and only with a cause; of every record before it all deliveries are there, and none that no record asks for; each it made got its message |
| DeliveryDispatch.Dispatcher.Dispatch | services/actions/src/dispatcher.ts:162-188 | a record taken has a delivery for each change before the first poison one and each action, and none that it does not ask for; those it made are messaged, and it is reported only with a cause |
| DeliveryDispatch.OneDeliveryAChange | services/actions/src/events.ts:70-83 | once every save of a run was dispatched, however often: the store has exactly one delivery for each of the signer's webhooks and each status change whose number fits the key and whose payload fits the cap, and no other |
| DeliveryDispatch.CodesDiffer | services/actions/src/events.ts:62-81 | every status of a transaction and of a match has an event name of its own |
| DeliveryDispatch.AsManyAsChanges | services/actions/src/events.ts:70-83 | where payloads fit, a webhook has exactly as many deliveries as the transaction had status changes, up to 10,000 |
| DeliveryDispatch.PastTheWidthThereIsNone | services/actions/src/keys.ts:29-40 | where payloads fit, the k-th status change has its delivery exactly when k is at most 9999 |
| DeliveryDispatch.DispatchedStays | services/actions/src/store.ts:66-95 | dispatching again changes nothing of what was dispatched |
| DeliveryDispatch.Allowed | services/actions/src/dispatcher.ts:42-49 | exactly the actions that name no secret, or one under a prefix of the list |
| DeliveryDispatch.UnderIsALevelBelow | services/actions/src/config.ts:117-121 | a name is let in exactly when it is a level below one of the prefixes |
| MatchDeliveries.WriteAsksFor | services/actions/src/dispatcher.ts:85-118 | one write of a match asks for exactly the deliveries of the status it came to, to the allowed actions of its rule, if a fast rule or a final record is concerned |
| MatchDeliveries.OneDeliveryAStatus | services/actions/src/events.ts:51-68 | once the writes of a match were dispatched, however often: one delivery for each status it came to and each such action whose payload fits, and no other |
| MatchDeliveries.AnnouncementsDiffer | services/actions/src/keys.ts:29-40 | two statuses of a match never share a delivery |
| MatchDeliveries.AsManyAsStatuses | services/actions/src/events.ts:51-68 | an action that hears of every status has exactly as many deliveries as the match went through statuses |
| MatchDeliveries.NoForeignSecret | services/actions/src/dispatcher.ts:42-49 | no delivery of a match goes to an action that names a secret outside the list |
| MatchDeliveries.EveryCanonicalMatchIsDelivered | services/actions/src/dispatcher.ts:85-118 | over every interleaving of polling cycles: a canonical match the durable cursor has passed has its match.final delivery for each allowed action, once the writes of its record were dispatched |
| MatchDeliveries.DropNoticesAreTrue | services/actions/src/dispatcher.ts:92-94 | a match.dropped delivery belongs to a fast rule and to a record that was dropped while no canonical block the cursor had passed held the match |
| DerCodec.ParseAfterEncode | packages/kms-signer/src/der.ts:12-60 | what is printed parses back exactly for numbers in the curve's order; others that fit 32 bytes are refused for being outside it |
| DerCodec.EncodeAfterParse | packages/kms-signer/src/der.ts:12-60 | what is parsed prints back: one encoding a signature |
| DerCodec.AcceptedIffEncoding | packages/kms-signer/src/der.ts:12-25 | accepted are exactly the encodings of signatures in order |
| DerCodec.ParseDerSignature | packages/kms-signer/src/der.ts:12-25 | the parser's checks compute that acceptance |
| DerCodec.ReadInteger | packages/kms-signer/src/der.ts:27-42 | the accumulating loop reads the big-endian number |
| DerCodec.EncodeInteger | packages/kms-signer/src/der.ts:48-60 | for every number: padding and skipping zeros gives the shortest positive form of what the hex text is read as |
| DerCodec.EncodeDerSignature | packages/kms-signer/src/der.ts:48-60 | prints the one byte string that parses back to a signature in order, and none that parses back to any other |
| DerCodec.TooLargeReadsAsAnother | packages/kms-signer/src/der.ts:48-53 | 2^256 is printed as 2^252, which parses |
| DerCodec.ToLowSIsCanonical | packages/kms-signer/src/der.ts:44-46 | the one of s and n-s in the lower half; idempotent |
| ConditionPaths.ResolvesExactly | packages/core/src/conditions.ts:29-36 | for every type and decoded value: a path resolves exactly when the components the decoder keeps have it and its array indices are in range |
| ConditionPaths.WalkForetells | packages/core/src/compile.ts:120-137 | the compiler's verdict on a path is right on a value exactly when it is the verdict on the components kept, or an index is out of range anyway |
| ConditionPaths.PlainIsKept | packages/core/src/compile.ts:132-136 | it is that verdict on every path whose tuples are named throughout and have the name read once |
| ConditionPaths.CheckFieldForetells | packages/core/src/compile.ts:37-55 | the same two statements for every field the compiler takes, indexed inputs, inputs of one name and context fields included |
| ConditionPaths.PlainFieldIsKept | packages/core/src/compile.ts:37-55 | the compiler is right on every event about a field whose input has its name alone and whose path is plain |
| ConditionPaths.WhatResolvesIsTaken | packages/core/src/compile.ts:37-55 | a field that resolves on an event decoded for the inputs is never refused, `args` alone excepted |
| ConditionPaths.ContextFieldsAreFine | packages/core/src/compile.ts:50-52 | each context field is taken and resolves on every event |
| ConditionPaths.WarnedPathResolves | packages/core/src/compile.ts:42-49 | an event with two inputs of one name, of which the compiler warns about a path that resolves |
| ConditionPaths.UnnamedComponentMisleads | packages/core/src/compile.ts:132-136 | a tuple with an unnamed component: a path accepted never resolves, and one warned about always does |
| ConditionPaths.DeadRuleNeverMatches | packages/core/src/conditions.ts:5-27 | a rule that can match only through paths rightly warned about matches nothing |
| ConditionPaths.MatchesInSomeWay | packages/core/src/conditions.ts:5-27 | a condition matches exactly when, in one of the ways to satisfy it, every leaf resolves and passes |
| ConditionPaths.ResolveField | packages/core/src/conditions.ts:29-36 | the stepping loop is the recursive resolution |
| ConditionPaths.PropertyIsOwn | packages/core/src/conditions.ts:32-33 | an array's own properties are its length and the canonical decimals below it |
| ConditionPaths.CanonicalIsDecimal | packages/core/src/compile.ts:127-130 | a canonical digit string is the decimal of its number |

## Left out

- KMS, RPC transport, error classification, SQS, SSM and DynamoDB clients: their answers are arbitrary inputs here.
- `sweepChain`'s paging, `checkPause`, pausing and unpausing of signers: a pause is an arbitrary answer, and running short of funds ends a run.
- `retryingConflicts`: only the number of tries matters; the waiting between them does not appear.
- `requeueIfDependencySettled`: the sweeper's requeue of a dependent transaction compares times of the last write, which the record here does not have.
- `MonitorStore.acquireLease` and `releaseLease`: nothing here relies on the lease.
- TTL expiry of records, claims and counters.
- A node call that throws, other than `findReceipt`: the run stops there, as in a crash.
- Monitor.Poller.DurableScan: the chunks of one range are written after its reads, not between them; a read that would have come after a failed write is made all the same.
- Monitor.Poller.FastScan: the fast reads' halving is not modelled; a read is any logs of mined blocks, so also what several reads give.
- Monitor.Poller.Poll: the active rules are given, and the same for every cycle.
- DeliveryDispatch.Dispatcher.Dispatch: a signer's webhooks and a rule are given, and the same for every record of a transaction or a match.
- MatchDeliveries.EveryCanonicalMatchIsDelivered: that the stream hands over every write, again and again until it is taken, is assumed of it.
- DerCodec.EncodeDerSignature: negative numbers, which no caller has.
- The text of error messages and logs, `updatedAt`, `revertData`, `reference`, addresses and calldata.
- Policy checks other than the gas limit and the costs: allowed addresses, selectors and transfer recipients.
- `matchLog`'s decoding and `evaluate`'s comparisons of values: a match is any function of rule and log, and a leaf's test any function of the resolved value.
- Payload rendering, the six channel senders, backoff arithmetic, and the loop over a queue batch.
- The HTTP API, sessions, configuration, the dashboard, contracts and infrastructure.
