# The chain-state engine, modelled and verified

This project models the part of the node that decides what the state of the sidechain is: the archive
of headers with blind merged mining and the fork choice, the unspent outputs with their accumulator, the
shielded pool's tables, the two-way peg with its withdrawal bundles, the reorganisation driver and the
mempool. `dafny verify dfyconfig.toml` checks everything; so does
`dafny verify --resource-limit 2000000 --verification-time-limit 0 --warn-contradictory-assumptions *.dfy`,
which bounds the effort spent on each member.

## How it is organised

| files | what they hold |
|---|---|
| `Types`, `Sums`, `RollBack`, `State` | shared values, sums over tables, height-stamped histories, the state object |
| `Accumulator` | diffs with cancellation and the forest they are applied to |
| `Lineage`, `CommonAncestor`, `AncestorsRev` | header trees with exponentially spaced ancestor links, and the searches over them |
| `Bmm`, `HeaderWork`, `Archive`, `ForkChoice`, `ForkRule` | blind merged mining, total work, the archive object, the better of two tips and what makes it better |
| `Peg`, `PegInvariant`, `PegRoundTrip`, `PegRepeats` | what peg events mean, what they keep, when undoing them restores the state, repeated confirmations included |
| `PegBlock`, `PegBlockRoundTrip`, `EventBlocks` | the peg data of one block, its undo, and the records of event blocks |
| `Collection`, `Payouts` | the collection of a bundle, whom it pays and what it leaves out |
| `PegSafety`, `PegHoldings`, `PegRuns` | which events are accepted and what they take, what is withdrawn and paid in every reachable state and run |
| `PegFailures` | lists and blocks in which a bundle fails again, and the conditions under which peg data is restored |
| `PegDiff`, `PegTracks` | the accumulator diff that events leave behind |
| `TwoWayPeg`, `PegSync`, `PegConnect` | the handlers and loops that change the state object |
| `Moves`, `SortScan`, `Shielded`, `Validation`, `Acceptance` | what a block body does, and what makes it acceptable |
| `Spending`, `BlockEffect` | the same said of inputs, outputs, owners and notes alone: who may spend, and what a block leaves behind |
| `BlockSpec`, `Block`, `BatchConnect`, `Disconnect` | connecting by the slow and by the fast path, and disconnecting |
| `Wealth`, `Chain`, `Tip` | conservation of value, runs of connected tips, block and peg data together |
| `Replay`, `Behind` | how mainchain events are shared out along a chain; tips that are not ahead |
| `Snapshots`, `PoolRun`, `Goal`, `Reorg` | what a node commits and how it goes back, the mempool along a chain, what a reorganisation aims at, the node with arrivals and the driver |
| `MemPool`, `PoolRules`, `BodyLists` | the mempool, who conflicts and who stays in it, and bodies as lists |
| `ExamplePeg`, `ExampleFork`, `ExampleRun` | concrete states for what the code does not do, and for what the laws suppose |

A database table is a map field of an object. A specification function says what an operation does to
the tables as values; the method that does it step by step, in the source's order, is proved to reach
exactly that outcome; and the laws are proved about the functions, for all inputs and all runs. What a
function means is stated apart from it, in terms of the tables and the input: `ForkRule`, `Payouts`,
`PegSafety`, `Spending`, `BlockEffect` and `PoolRules` hold these laws.

## What is taken for granted

- Hashes are terms: two hashes are equal exactly when the hashed values are, so a block hash, a
  transaction id, a Merkle root, an output hash or a bundle id determines what it was made from.
- An outpoint commits to its output. Outpoints created by a block or by a deposit are new, that is, in
  neither output table; the code does not enforce this for bodies without value. This is the hypothesis
  `Fresh` of a block and `GenuineEvents` of peg data. A collected bundle has a new id (`MintsFresh`).
- The utreexo forest is its set of leaves with the ordered batches that were applied to it, which fix
  its shape and roots. A deletion of an absent leaf is an error. An Orchard bundle is its nullifiers,
  commitments, value balance, anchor and spend flag.
- Size limits, proof and signature verification, the proofs that a forest gives for leaves, the encoding
  of outpoints as keys and the order of outpoints are parameters (`Foreign`); keys differ for different
  outpoints, and the order is total.
- A reorganisation supposes that what it connects is new in this sense (`GenuineLog` of its target), and
  that what it disconnects can be undone: the body stored for each such tip is the connected one and its
  peg data meets the conditions of `PegBlockRoundTrip.BlockRoundTrip` or `PegFailures.RefailedBlockRoundTrip`
  (`Undone`), and the frontier of the common ancestor is found (`FrontierFound`). For a frontier that is
  not found, `Reorg.Node.Rewind` says what the driver goes on from.
  `ExampleRun.RunsOfEveryLength`, `ExampleFork.NewNodeReachesB2` and `ExampleFork.NodeSwitchesToC3` show
  that this can be met.
- A mainchain block hash determines the parent and the info stored for it.
- An operation that returns an error leaves the state as it was, because its write transaction is
  dropped. Failed assertions, `expect` and unsigned underflow are errors of the model too.
- Iteration over a table visits its entries in an arbitrary order.
- Heights stay below 2^32, as a requirement where the archive adds one.

## What the code does not do

- At equal height on one mainchain lineage, the fork choice prefers the tip with less work; the comment
  at lib/archive.rs:1231-1232 says greater. The model follows the code.
- When the new tip is a strict ancestor of the current one, is no genesis block, and was verified on
  another mainchain fork with more total work, it is preferred, and `reorg_to_tip` collects all blocks
  down to genesis, since none of them equals the common ancestor; the first one is then refused.
  `Goal.NeverBackwards` says that this is exactly when, `ExampleFork.PreferredButBehind` gives a case. The
  block of the current tip itself is never preferred, because the driver compares the new tip with the
  verification of greatest work.
- Disconnecting peg data compares the earliest event block with the latest one that connecting
  recorded; undoing a pending submission overwrites a bundle minted in the same block; and undoing a
  repeated confirmation or failure takes back the first one itself, which fails when it is an earlier
  block's: `PegBlockRoundTrip.BlockRoundTrip` and `PegFailures.RefailedBlockRoundTrip` give the exact
  conditions, `ExamplePeg` a case of each.
- Frontiers are archived only for blocks that append to them, but looked up by the parent: a block that
  appends on top of one that did not cannot be disconnected without leaving its commitments behind.
  `Snapshots.PopRestoresExactly` and `Snapshots.FrontierFoundExactly` give the exact condition, for one tip
  and for several, `ExampleRun.FrontierIsLost` a case.
- The value of a withdrawal is capped at the largest amount, so a withdrawal whose payout and fee exceed it
  is not paid for in full: `Spending.WithdrawalsArePaidFor` says exactly when it is,
  `Spending.CappedWithdrawalIsFree` gives a case.
- A body may carry fewer authorizations than inputs; only the positions of both are compared, and the rest is
  up to the signature check.
- A sidechain genesis block built on the zero hash is handed the events of every mainchain block:
  `Replay.PlanIsCanonicalExactly` says exactly when the shares are right,
  `ExampleFork.FirstBlockGetsEverything` gives a case.

## Model

| member | source | states |
|---|---|---|
| `PegInvariant.ConnectEventKeepsInv` | lib/state/two_way_peg_data.rs:535-573 | whatever accepted event is connected, the peg invariant stays: a pending bundle is known and its latest status is pending; every history is ordered by height and changes status only as the automaton allows; a known bundle that is submitted or confirmed has all its outputs recorded as withdrawn by it; an unknown bundle is confirmed at height 0 only, and what it took is recorded as withdrawn by it; no output is both spent and unspent; a recorded latest failure belongs to a bundle that has failed |
| `PegInvariant.ConnectEventsKeepInv` | lib/state/two_way_peg_data.rs:584-600 | the invariant holds after every prefix of every accepted list of events, and the remaining deposits are still new there |
| `PegInvariant.ConnectSubmittedKeepsInv` | lib/state/two_way_peg_data.rs:118-282 | submission of the pending bundle, of an unknown one, or again after a failure keeps the invariant; unexpected submission never directly follows pending |
| `PegInvariant.ConnectConfirmedKeepsInv` | lib/state/two_way_peg_data.rs:286-408 | confirmation keeps the invariant: it withdraws what no submission withdrew, and that of an unknown bundle happens at height 0 only |
| `PegInvariant.ConnectFailedKeepsInv` | lib/state/two_way_peg_data.rs:412-488 | failure keeps the invariant, including the record of the latest failure |
| `PegInvariant.PushKeepsLegal` | lib/state/rollback.rs:34-42 | pushing a legal status at a height that bounds the history is accepted and leaves the history legal and ordered |
| `PegInvariant.PanicsExactly` | lib/state/two_way_peg_data.rs:126-488 | in a reachable state no rejected push can occur, and an assertion fails exactly on a confirmation or failure of a recorded bundle that is neither submitted nor already in that final status |
| `PegInvariant.LatestFailureFound` | lib/state/mod.rs:208-237 | the lookup of the latest failure meets neither of its panics, and the height it finds can be subtracted from the current one |
| `PegInvariant.ConfirmedIsFinal` | lib/state/two_way_peg_data.rs:299-307 | a confirmed bundle never changes again, whatever accepted events follow |
| `PegInvariant.ConnectEventSeen` | lib/state/two_way_peg_data.rs:118-573 | events only move outputs between the unspent and the spent table; only deposits add outpoints |
| `PegSafety.ConfirmationAccepted` | lib/state/two_way_peg_data.rs:286-408 | a confirmation is accepted if and only if the bundle is confirmed already, or submitted regularly and known, or submitted unexpectedly, known and with all outputs unspent, or submitted, unknown and the height is 0 |
| `PegSafety.SubmissionAccepted` | lib/state/two_way_peg_data.rs:118-282 | a submission is accepted if and only if the bundle is new, has failed, or is the pending one with all its outputs unspent |
| `PegSafety.FailureAccepted` | lib/state/two_way_peg_data.rs:412-488 | a failure is accepted if and only if the bundle is submitted or has failed already |
| `PegSafety.StatusAfter` | lib/state/two_way_peg_data.rs:118-573 | an accepted event changes only its own bundle, by one status of its kind at this height on top of the history, or not at all; a new bundle is recorded as unknown |
| `PegSafety.EventMovesExactly` | lib/state/two_way_peg_data.rs:118-573 | the unspent outputs after an accepted event are exactly those before it, less what the submission of the pending bundle, an unexpected confirmation, or at height 0 the confirmation of an unknown bundle takes, and with the deposit or what a failing bundle's submission had taken |
| `PegSafety.OnlyKnownBundlesTake` | lib/state/two_way_peg_data.rs:584-600 | above height 0, an output that is unspent before an accepted list of events and not after it belongs to a known bundle that the list submits or confirms |
| `PegHoldings.HeldExactly` | lib/state/two_way_peg_data.rs:118-573 | an output is recorded as withdrawn by a bundle if and only if the bundle is submitted or confirmed and spends it |
| `PegHoldings.HeldOnce` | lib/state/two_way_peg_data.rs:118-573 | no output is withdrawn by two bundles |
| `PegHoldings.EventKeepsBooks` | lib/state/two_way_peg_data.rs:535-573 | accepted events keep this, keep what every known bundle pays, and keep the latest failure on record a regular one and no regular failure later than it |
| `PegHoldings.LatestFailureMeans` | lib/state/mod.rs:208-237 | the height looked up is 0 before any regular failure, and otherwise that of the last failure of the bundle that failed last |
| `PegHoldings.MintedExactly` | lib/state/two_way_peg_data.rs:635-673 | a bundle is minted if and only if none is pending, four blocks have passed since the failure on record, and some unspent output is a withdrawal, unless an amount overflows |
| `PegHoldings.NoMintAfterFailure` | lib/state/two_way_peg_data.rs:635-673 | within four blocks after a regular failure of any bundle, none is minted |
| `PegHoldings.MintMeans` | lib/state/two_way_peg_data.rs:640-672 | a minted bundle is the collected one; it becomes pending, known and pending since this height, and nothing else changes |
| `PegHoldings.BundleIsWorth` | lib/state/two_way_peg_data.rs:80-108 | what a known bundle's outputs are worth is its payouts and its fee if and only if no amount was capped, and never more |
| `PegHoldings.SubmissionCosts` | lib/state/two_way_peg_data.rs:147-167 | submitting the pending bundle lowers the wealth and what circulates by what its outputs are worth |
| `PegRuns.EveryRunKeepsBooks` | lib/node/net_task.rs:93-132 | in the state after every run, recorded as withdrawn is exactly what submitted and confirmed bundles spend, every known bundle pays what was requested to whom requested it, and no regular failure is later than the one on record |
| `PegRuns.NobodyElseTakes` | lib/node/net_task.rs:93-132 | above the genesis block, an unspent output leaves the table only with an input whose authorization, if there is one, is by its owner, or with a known bundle that an event of the block's peg data submits or confirms |
| `PegRuns.EveryRunPaysOut` | lib/node/net_task.rs:93-132 | in every run, what circulates, is shielded or unclaimed is all deposits less what submitted and confirmed bundles have taken; a known bundle has taken its payouts and its fee if and only if no amount was capped |
| `PegRuns.TipAcceptedExactly` | lib/node/net_task.rs:93-126 | a tip connects if and only if its block is lawful, its notes are accepted and its peg data connects |
| `PegInvariant.DisconnectEventKeepsBalanced` | lib/state/two_way_peg_data.rs:978-1017 | also in the middle of disconnecting, no output is both spent and unspent and every output is the one its outpoint commits to |
| `PegRoundTrip.EventRoundTrip` | lib/state/two_way_peg_data.rs:978-1017 | disconnecting an event right after connecting it restores the whole peg state if and only if the event was no repeat of a final status and no deposit on top of an unspent output |
| `PegRoundTrip.EventsRoundTrip` | lib/state/two_way_peg_data.rs:1032-1047 | also at a height at which events were connected before: disconnecting an accepted list last to first restores the state, when each event was undoable where it was connected |
| `PegRepeats.EventsRestoredExactly` | lib/state/two_way_peg_data.rs:1032-1047 | a list of accepted events that may confirm bundles repeatedly, but fails none again: disconnecting it restores the state if no event confirms a bundle that was confirmed before the list, and otherwise fails |
| `PegRepeats.PatchedRoundTrip` | lib/state/two_way_peg_data.rs:750-844 | the same from a state in which some of the list's confirmations have been taken back already, and beside a bundle minted after the list |
| `PegRepeats.ConfirmationsSince` | lib/state/two_way_peg_data.rs:286-408 | after every accepted list, a confirmed bundle was confirmed before it and is unchanged, or was confirmed at this height and everything its confirmation took is still recorded as withdrawn by it |
| `PegRepeats.DisconnectCommutesPatch` | lib/state/two_way_peg_data.rs:681-936 | undoing an event leaves alone whatever was taken back for other bundles |
| `RollBack.PopUndoesPush` | lib/state/rollback.rs:24-42 | a history accepts a push at every height that bounds it, the push becomes the latest value, and popping returns that value and the old history |
| `RollBack.PushAppends` | lib/state/rollback.rs:34-42 | a push is rejected if and only if it is below the latest height, and otherwise is the one new entry |
| `PegBlock.ConnectKeepsInv` | lib/state/two_way_peg_data.rs:576-679 | connecting all peg data of a block, with the bundle it may mint, keeps the invariant, strictly below the next height |
| `PegBlock.MintKeepsInv` | lib/state/two_way_peg_data.rs:640-672 | a newly minted bundle with a new id becomes the pending one without breaking the invariant |
| `PegBlockRoundTrip.BlockRoundTrip` | lib/state/two_way_peg_data.rs:1019-1122 | disconnecting a block's peg data, which may repeat confirmations but no failure, restores all peg tables if and only if at most one mainchain block carried deposits, at most one carried bundle events, the pending bundle was not replaced by a new one within the block, and no bundle was confirmed that had been confirmed before |
| `PegBlockRoundTrip.PegStateRestored` | lib/state/two_way_peg_data.rs:1074-1101 | without a repeated failure, undoing the events and the minting restores outputs, bundles, the pending bundle and the latest failure if and only if the block did not both submit the pending bundle and mint another, and repeated no confirmation from before the block |
| `PegBlockRoundTrip.UnrecordUndoesRecord` | lib/state/two_way_peg_data.rs:1048-1073 | the record of event blocks is restored if and only if the earliest block with such events, found by the reverse scan, is the latest one, which connecting recorded |
| `EventBlocks.LatestMeans` | lib/state/two_way_peg_data.rs:600-634 | the recorded block is the last one of the batch that carries an event of the kind, and there is none if and only if no block does |
| `EventBlocks.EarliestMeans` | lib/state/two_way_peg_data.rs:1032-1047 | the block compared with it is the first one of the batch that does |
| `EventBlocks.ConnectRecords` | lib/state/two_way_peg_data.rs:600-634 | connecting a batch records one block of each kind that occurs, at the height of the sidechain block |
| `PegRepeats.EventsRestoredBesidePending` | lib/state/two_way_peg_data.rs:1029-1101 | disconnecting a list restores the state beside a bundle minted after it, under the same condition, and fails otherwise |
| `PegBlockRoundTrip.FailureHeightGrowsAll` | lib/state/two_way_peg_data.rs:635-641 | accepted events never lower the height of the latest failure |
| `ExamplePeg.TwoDepositBlocksAreNotUndone` | lib/state/two_way_peg_data.rs:1101-1118 | a concrete batch with deposits in two mainchain blocks: it connects, and disconnecting it does not restore the state |
| `ExamplePeg.SubmitAndMintIsNotUndone` | lib/state/two_way_peg_data.rs:1074-1101 | a concrete block that submits the pending bundle and mints another: undoing it does not restore the peg state |
| `ExamplePeg.ConfirmedTwice` | lib/state/two_way_peg_data.rs:750-844 | a bundle confirmed twice in one list is restored; one confirmed again after an earlier block is not |
| `PegFailures.RepeatedFailureExactly` | lib/state/two_way_peg_data.rs:847-936 | a list in which a bundle fails again without a new submission, all else being undoable: disconnecting it restores the state if the bundle failed at this height, after a regular submission, is the latest that failed, and what the failure gave back is still unspent where it is repeated; otherwise it fails |
| `PegFailures.RefailedRoundTrip` | lib/state/two_way_peg_data.rs:847-936 | once the failure of a bundle has been taken back by undoing its repeat, disconnecting the rest of the list leads back to the start after a regular submission, and fails after an unexpected one |
| `PegFailures.UndoFailureExactly` | lib/state/two_way_peg_data.rs:847-936 | undoing a failure: which of the height, the outputs and the latest failure is in the way, and what is taken back when none is |
| `PegFailures.RefailedBlockRoundTrip` | lib/state/two_way_peg_data.rs:1019-1122 | the peg tables of a block with such a repeated failure are restored if and only if the repeat is harmless in that sense, the pending bundle was not replaced within the block, and at most one mainchain block carried deposits and at most one bundle events |
| `PegFailures.UndoneBesides` | lib/state/two_way_peg_data.rs:681-936 | a bundle minted later makes no undo of other bundles' events possible that would fail without it |
| `ExamplePeg.FailedTwice` | lib/state/two_way_peg_data.rs:847-936 | a bundle that fails twice in one list is restored; one that failed in an earlier block and fails again is not |
| `TwoWayPeg.SpendOutputs` | lib/state/two_way_peg_data.rs:147-167 | moving a bundle's outputs one by one, in any order, succeeds if and only if all are unspent, and then has the effect of one simultaneous withdrawal, with the accumulator diff in step |
| `TwoWayPeg.UnspendOutputs` | lib/state/two_way_peg_data.rs:447-463 | moving them back one by one, in any order, has the effect of one simultaneous reinstatement, with the diff in step |
| `TwoWayPeg.ConnectBundleSubmitted` | lib/state/two_way_peg_data.rs:118-282 | the handler reaches exactly the specified state or error, and its diff is the one specified for the order of outpoints in a bundle |
| `TwoWayPeg.ConnectBundleConfirmed` | lib/state/two_way_peg_data.rs:286-408 | the same for confirmation |
| `TwoWayPeg.ConnectBundleFailed` | lib/state/two_way_peg_data.rs:412-488 | the same for failure |
| `TwoWayPeg.ConnectOneEvent` | lib/state/two_way_peg_data.rs:535-573 | a deposit adds its output and its leaf, and every bundle event reaches the outcome specified for it |
| `TwoWayPeg.DisconnectBundleSubmitted` | lib/state/two_way_peg_data.rs:681-747 | the undo handler for a submission reaches exactly the specified state or error, with the diff in step |
| `TwoWayPeg.DisconnectBundleConfirmed` | lib/state/two_way_peg_data.rs:750-844 | the same for undoing a confirmation |
| `TwoWayPeg.DisconnectBundleFailed` | lib/state/two_way_peg_data.rs:847-936 | the same for undoing a failure |
| `TwoWayPeg.DisconnectOneEvent` | lib/state/two_way_peg_data.rs:978-1017 | the same for any event |
| `PegSync.ConnectAllEvents` | lib/state/two_way_peg_data.rs:584-600 | the nested loops over blocks and events have the outcome of the flat list of events, first error included, and find the latest block of each kind |
| `PegSync.DisconnectAllEvents` | lib/state/two_way_peg_data.rs:1032-1047 | the reverse loops have the outcome of the flat list disconnected last to first, and find the earliest block of each kind |
| `PegConnect.MintPending` | lib/state/two_way_peg_data.rs:635-673 | a bundle is minted if and only if no failure is recent, none is pending and one can be collected |
| `PegConnect.ConnectPegData` | lib/state/two_way_peg_data.rs:576-679 | either an error and nothing changes, or exactly the specified peg tables, and the accumulator changed by exactly the one batch that the events determine, its leaves again those of the unspent outputs; applying the batch never fails |
| `PegTracks.EventsTrack` | lib/state/two_way_peg_data.rs:576-600 | the diff specified for accepted genuine events is the difference between the leaves before and after them |
| `PegTracks.UndoEventsTrack` | lib/state/two_way_peg_data.rs:1019-1047 | the diff specified for undoing events takes the leaves back to those of the outputs that are unspent afterwards |
| `PegDiff.MoveFirst` | lib/types/mod.rs:195-198 | the outputs of a bundle are moved in the order of their outpoints, so the diff is determined |
| `PegConnect.DisconnectPegData` | lib/state/two_way_peg_data.rs:1019-1122 | the same for disconnecting |
| `Collection.CollectIsExact` | lib/state/two_way_peg_data.rs:23-115 | a collected bundle spends only withdrawals, its payouts add up to the payouts requested by them, its committed fee is the sum of their fees, it is within the standard weight, and it is never refused as too heavy; to whom it pays is in the next rows |
| `Payouts.BundlePaysAsRequested` | lib/state/two_way_peg_data.rs:23-115 | a collected bundle pays every mainchain address at most once and exactly what the spent withdrawals that name it request; it spends all or none of the withdrawals to an address; an address left out although an output to it can be made offers no greater fee, or as much and requests no more, than any address paid, and the best of those left out would make the transaction too heavy; there is no bundle if and only if there is no withdrawal, and an overflow if and only if the payouts or fees to some address do not fit |
| `Payouts.DecideMeans` | lib/state/two_way_peg_data.rs:72-112 | an aggregate is skipped only when no output to its address can be made, the selection stops only when one more output would exceed the standard weight, and an aggregate is taken only when it does not |
| `Collection.CollectWithdrawalBundle` | lib/state/two_way_peg_data.rs:23-115 | however the tables are iterated, the result is the one function of the unspent outputs that `Payouts.BundlePaysAsRequested` describes |
| `Collection.ListingUnique` | lib/types/mod.rs:425-438 | sorting the aggregates by fee, then value, then address has only one result, because addresses differ |
| `Collection.Aggregate` | lib/state/two_way_peg_data.rs:27-68 | aggregation by address fails exactly when some address overflows, and otherwise yields the sums over that address's withdrawals, in whatever order the outputs are visited |
| `Collection.PredictionBoundsWeight` | lib/types/mod.rs:217-320 | the predicted weight is at least the weight of the transaction that is built, as defined in BIP 141 under "Transaction size calculations", and at most the standard limit when accepted |
| `Collection.SelectOutputs` | lib/state/two_way_peg_data.rs:72-112 | the greedy selection loop takes the aggregates in order until one no longer fits; what that leaves in and out is in `Payouts.BundlePaysAsRequested` |
| `Accumulator.BatchEqualsOneByOne` | lib/types/mod.rs:472-562 | applying the diff of any permitted sequence of insertions and removals in one batch has the effect of doing them one by one, cancellations included, and never fails |
| `Accumulator.RecordTracks` | lib/types/mod.rs:473-504 | after each recorded operation the diff still is exactly the difference between the leaves at the start and the leaves now |
| `Accumulator.ApplyTracked` | lib/types/mod.rs:525-562 | a diff that tracks a change performs that change on the forest |
| `Accumulator.RecordCounts` | lib/types/mod.rs:473-504 | recording an operation changes the number of kept insertions and of kept deletions by at most one, as the two counters do |
| `Accumulator.AccumulatorDiff.Insert` | lib/types/mod.rs:473-487 | the counters stay the numbers of kept insertions and deletions, so the decrement never underflows, and an opposite entry cancels |
| `Accumulator.AccumulatorDiff.Remove` | lib/types/mod.rs:489-504 | the same for removal |
| `Accumulator.ApplyDiff` | lib/types/mod.rs:525-562 | the insertions and the deletions handed to the forest are those of the diff, each in order of first insertion |
| `Accumulator.TakeBackRestores` | lib/state/block.rs:577-629 | permitted operations taken back last to first are permitted again and restore the leaves |
| `State.LeavesRemove` | lib/state/block.rs:442-488 | removing an unspent output removes exactly its leaf |
| `State.LeavesInsert` | lib/state/block.rs:442-488 | adding an output under a new outpoint adds exactly one new leaf |
| `Moves.PerformIsAllAtOnce` | lib/state/block.rs:297-413 | performing a block's moves one by one equals deleting all spent outputs, recording them as spent and adding all created ones, when spends are distinct and unspent and created outpoints are new |
| `Moves.UndoRestores` | lib/state/block.rs:577-708 | taking the moves back, last to first, never misses an output and restores both tables |
| `Moves.OpsFollowMoves` | lib/state/block.rs:156-294 | the accumulator operations of a block are all permitted and lead to the leaves of the new unspent outputs |
| `SortScan.HasRepeat` | lib/state/block.rs:212-224 | sorting fixed-width keys and comparing neighbours finds exactly the lists with a repeated outpoint, for every injective encoding |
| `SortScan.PutAllReordered` | lib/state/block.rs:379-396 | consistent writes to a table have the same effect in every order |
| `SortScan.SortSorts` | lib/state/block.rs:380-382 | the sort yields an ordered rearrangement of its input |
| `Validation.FillTransaction` | lib/state/mod.rs:280-297 | every input is replaced by the output it spends, and it fails if and only if some input is not unspent |
| `Validation.CheckedSum` | lib/state/mod.rs:341-365 | a checked sum fails exactly when the total exceeds the largest amount |
| `Validation.ValidateFilledTransaction` | lib/state/mod.rs:322-378 | the fee of a transaction, or the first check that fails, for every transaction; `Spending.AcceptedIsLawful` says what passes in terms of costs and owners |
| `Validation.Prevalidate` | lib/state/block.rs:156-294 | the verdict on a block, with the exact first error, and on acceptance the fee total, the filled transactions and the diff of the block's moves; validation (lines 22-154) is the same sequence of checks |
| `Acceptance.AcceptedExactly` | lib/state/block.rs:156-294 | the sequence of checks accepts exactly the acceptable blocks, described declaratively, and the fees are all value that the transactions leave over |
| `Spending.AcceptedIsLawful` | lib/state/block.rs:156-294 | a block is accepted if and only if it extends the tip and commits to its body, every input spends an unspent output under its leaf and no two the same one, each transaction has a known anchor and a proof and creates no more than comes in, the coinbase takes no more than is left over, every authorization at the position of an input is by the owner of the output spent, the signatures hold and the roots fit; its fees are what is left over |
| `Spending.OthersAreRefused` | lib/state/block.rs:271-277 | a block that is sound otherwise is refused for a wrong address if and only if some input has an authorization by another than the owner of what it spends |
| `Spending.UnpackedOwners` | lib/types/transaction.rs:912-928 | each authorized transaction that an accepted body unpacks to is authorized, input by input, by the owners of what it spends |
| `Spending.WithdrawalsArePaidFor` | lib/types/transaction.rs:519-531 | in a lawful transaction a created withdrawal costs at most what comes in if and only if its payout and its mainchain fee together fit an amount |
| `Spending.CappedWithdrawalIsFree` | lib/types/transaction.rs:519-531 | a concrete transaction whose withdrawal is capped: 50 satoshis of mainchain fee come for free |
| `Acceptance.ChecksMean` | lib/state/block.rs:226-263 | all transactions pass exactly when each is acceptable and the fees fit in an amount |
| `Acceptance.AcceptedMoves` | lib/state/block.rs:204-239 | an accepted block spends only unspent outputs, each once and under its own leaf |
| `Shielded.ConnectOrchard` | lib/state/block.rs:416-440 | a bundle is connected if and only if its commitments fit, its nullifiers differ and none was used; then all are stored |
| `Shielded.BundlesRoundTrip` | lib/state/block.rs:565-575 | deleting the nullifiers of a block restores the set of used nullifiers, and the frontier has grown by exactly the block's commitments |
| `Shielded.PutHistoricalRoot` | lib/state/orchard.rs:98-113 | the root is stored in both tables exactly when it is new |
| `Shielded.DeleteHistoricalRoot` | lib/state/orchard.rs:126-139 | the root of the block, if it has one, is deleted from both tables |
| `Shielded.RootsAreInverse` | lib/state/orchard.rs:15-29 | along every chain of blocks the two root tables are inverses of each other |
| `Shielded.RootsSeen` | lib/state/orchard.rs:98-113 | the known roots are exactly the empty root and the roots after the blocks of the chain |
| `Shielded.DeleteUndoesPut` | lib/state/orchard.rs:126-139 | deleting the root of the last block gives the tables of the chain without it |
| `Shielded.RootIsNewIffGrown` | lib/state/orchard.rs:98-113 | a root is new if and only if the block appended a commitment |
| `Shielded.NewBlockIsNew` | lib/state/block.rs:497-504 | a block on top of the tip is not on the chain yet |
| `Block.ConnectTransaction` | lib/state/block.rs:442-488 | one transaction performs its moves on the tables and in the diff, then connects its bundle |
| `Block.Connect` | lib/state/block.rs:491-560 | the slow path: refused for a wrong parent or a wrong body, otherwise the outcome of connecting the transactions one at a time, with the error of the first that is refused, and nothing on an error |
| `BlockSpec.OneByOneAgrees` | lib/state/block.rs:442-560 | transactions one at a time, inputs before bundle, and all moves followed by all bundles have the same outcome unless an input is missing; then both fail |
| `BatchConnect.WritesAreMoves` | lib/state/block.rs:314-395 | sorted deletions, then spent-table writes, then unspent-table writes, in whatever order the sort leaves them, have the effect of all moves at once |
| `BatchConnect.ConnectPrevalidated` | lib/state/block.rs:297-413 | the fast path has the same outcome as the slow path: state, diff, error and reported frontier, for every sort key |
| `BatchConnect.ApplyBlock` | lib/state/mod.rs:571-606 | a block is rejected with the verdict on it or else connected with that outcome; an error changes nothing |
| `BlockSpec.AcceptedConnects` | lib/state/block.rs:297-413 | an accepted block can only be refused by its shielded bundles; otherwise the accumulator becomes the one its header commits to |
| `BlockSpec.ConnectKeepsChain` | lib/state/block.rs:297-413 | connecting an accepted block keeps everything that holds along a chain: height, frontier, root tables, disjoint output tables, accumulator leaves equal to the unspent outputs |
| `BlockEffect.BlockHasEffect` | lib/state/block.rs:297-413 | connecting an accepted block spends every input and records the input that spent it, creates every output under its own outpoint, and moves nothing else; no nullifier occurs twice or was used before and all are used now; the commitments are appended in order; tip and height are the block's |
| `BlockEffect.BundlesUse` | lib/state/block.rs:416-440 | of all nullifiers in the bundles of an accepted block no two are the same and none was used before; used afterwards are exactly those before and these |
| `BlockSpec.DisconnectUndoesConnect` | lib/state/block.rs:631-708 | disconnecting the tip always succeeds after connecting it, and restores everything if and only if it is given the accumulator from before and the frontier from before, or none when the block appended nothing |
| `BlockSpec.FrontierReported` | lib/state/block.rs:405-412 | a changed frontier is reported exactly when the block appended a note commitment |
| `Disconnect.DisconnectTransaction` | lib/state/block.rs:577-629 | nullifiers, outputs and inputs of a transaction are taken back last to first, or the first missing output is reported |
| `Disconnect.DisconnectTip` | lib/state/block.rs:631-708 | exactly the specified contents or error for every state, header, body, accumulator and frontier, and nothing on an error |
| `BodyLists.UnpackUndoesPack` | lib/types/transaction.rs:889-928 | unpacking a packed body gives back the authorized transactions if and only if each has one authorization per input |
| `BodyLists.PackUndoesUnpack` | lib/types/transaction.rs:889-928 | packing what was unpacked gives back the transactions and the authorizations that inputs asked for |
| `BodyLists.NewBody` | lib/types/transaction.rs:889-910 | the body holds the transactions and the concatenated authorizations, in order |
| `BodyLists.AuthorizedTransactions` | lib/types/transaction.rs:912-928 | each transaction takes as many authorizations as it has inputs, and the panic occurs exactly when they run out |
| `BodyLists.ModifyMemforest` | lib/types/transaction.rs:936-974 | the forest is modified by the created and the claimed leaves, in order |
| `BodyLists.ProposerAgreesWithValidator` | lib/types/transaction.rs:936-974 | the proposer's ordered lists are those of the validator's diff if and only if all leaves differ, in-block spends included |
| `Wealth.SidechainWealth` | lib/state/mod.rs:488-529 | deposits, spent or not, less withdrawals, in whatever order the tables are read; nothing when a sum overflows or the result is negative; `PegRuns.EveryRunPaysOut` says what the withdrawals are |
| `Wealth.MovesConserve` | lib/state/block.rs:442-488 | a block body leaves the wealth alone and changes what circulates by what it creates and spends |
| `Wealth.BlockConserves` | lib/state/block.rs:256-268 | an accepted block leaves the wealth alone, and value leaves the unspent outputs only for the shielded pool or as unclaimed fees |
| `Wealth.WithdrawConserves` | lib/state/two_way_peg_data.rs:147-167 | a withdrawal lowers the wealth and what circulates alike |
| `Wealth.ReinstateConserves` | lib/state/two_way_peg_data.rs:447-463 | reinstating what a bundle withdrew raises both alike |
| `Wealth.EventsConserve` | lib/state/two_way_peg_data.rs:535-600 | no accepted list of peg events changes the difference between wealth and what circulates |
| `Chain.TipKeepsInv` | lib/node/net_task.rs:93-132 | connecting a block with its peg data keeps the invariant of the whole state, for the chain with that block added |
| `Chain.TipConserves` | lib/node/net_task.rs:93-132 | connecting a tip moves value only into the shielded pool or into unclaimed fees, which are never negative |
| `Chain.TipRoundTrip` | lib/node/net_task.rs:233-246 | disconnecting the peg data and then the block, with the archived accumulator, restores the state before the tip if and only if the frontier fits, when the peg data is undone |
| `Chain.EveryRun` | lib/node/net_task.rs:93-132 | in the state after every run from genesis the invariant holds, and what circulates, the shielded pool and the unclaimed fees add up to the sidechain's wealth |
| `ExampleRun.RunsOfEveryLength` | lib/node/net_task.rs:93-132 | there are such runs of every length, each step genuine and undoable, and with a deposit in every step |
| `ExampleRun.FrontierIsLost` | lib/node/net_task.rs:235-246 | a concrete run whose last tip appended to the frontier on top of one that did not: disconnecting it leaves its note in the tree, and connecting it again puts the note there twice |
| `Chain.DisconnectStaysOnRun` | lib/node/net_task.rs:233-246 | disconnecting the tip of a run leads back to the previous state of that run |
| `Snapshots.PopRestoresExactly` | lib/node/net_task.rs:233-246 | disconnecting an undoable tip with the accumulator and the frontier that are archived for its parent leads back to the state before it if and only if the block appended nothing to the frontier or its parent did too |
| `Snapshots.FrontierFoundExactly` | lib/node/net_task.rs:235-246 | disconnecting several tips leads to the frontier of the block that is reached if and only if that frontier is on file or none of the disconnected blocks appended to it; otherwise the frontier is longer, the one that was last found on the way |
| `Snapshots.RewoundExactly` | lib/node/net_task.rs:326-354 | the state reached by going back is the one of the remaining chain if and only if its frontier is found |
| `Snapshots.PopKeepsRewinding` | lib/node/net_task.rs:233-246 | also from a state whose frontier was not restored, an undoable tip is disconnected without an error, and all but the frontier is as it was |
| `Snapshots.PushKeepsBooks` | lib/node/net_task.rs:114-129 | connecting a tip and archiving its accumulator and changed frontier keeps the archive in step with every prefix of the connected chain |
| `Snapshots.CommittedStateIsSound` | lib/node/net_task.rs:258-423 | whatever arrivals and reorganisations a node has gone through, its state satisfies the invariant for its chain, value is conserved, and the connected tips have together brought in the events of all mainchain blocks, in order, each exactly once |
| `Snapshots.ArrivalKeepsLog` | lib/archive.rs:692-976 | the connected chain stays verified and connected with each block's own share of events as headers, mainchain blocks and bodies arrive, even when a body is replaced |
| `Tip.ConnectTip` | lib/node/net_task.rs:114-126 | the state's part of connecting a tip reaches the next state of the run, or reports exactly the first part that refuses it and changes nothing |
| `Tip.DisconnectTip` | lib/node/net_task.rs:233-246 | peg data first, block second, or exactly the error of the part that fails, and nothing changes |
| `Lineage.GetNthAncestor` | lib/archive.rs:544-607 | equals n parent links, fails exactly when n exceeds the height, never indexes out of bounds, and follows one link per set bit of n |
| `Lineage.IsDescendant` | lib/archive.rs:629-677 | true exactly when the first block is the second or one of its ancestors |
| `Lineage.ComputeSkips` | lib/archive.rs:754-778 | the stored vector has the length of the binary logarithm of the height, and the truncation to 32 bits loses nothing |
| `Lineage.PutLink` | lib/archive.rs:720-778 | after every insertion all vectors hold exactly the ancestors at powers of two, and no known link changes |
| `Lineage.AncestorAdd` | lib/archive.rs:544-574 | ancestors of ancestors are ancestors at the sum of the distances |
| `Lineage.PopCountDropsLeadingBit` | lib/archive.rs:544-574 | following the longest link removes exactly one set bit of the remaining distance |
| `CommonAncestor.LastCommonIsHighest` | lib/archive.rs:1083-1141 | the last common ancestor is a common ancestor of which every common ancestor is an ancestor, and there is none exactly when no block is common |
| `CommonAncestor.NoCommonIffGenesisDiffers` | lib/archive.rs:1114-1123 | there is no common ancestor exactly when the genesis blocks differ |
| `CommonAncestor.AgreementIsMonotone` | lib/archive.rs:1124-1141 | once two lineages agree at some depth they agree at every greater depth |
| `CommonAncestor.SearchAgreement` | lib/archive.rs:1124-1141 | the binary search finds the first depth of agreement |
| `CommonAncestor.LastCommonAncestor` | lib/archive.rs:1083-1141 | the highest common ancestor, or none, or an error for an unknown block |
| `CommonAncestor.LastCommonMainAncestor` | lib/archive.rs:1145-1192 | always the highest common ancestor, since every mainchain lineage ends at the zero hash |
| `CommonAncestor.SharedLineage` | lib/archive.rs:1196-1222 | true exactly when one block is an ancestor of the other |
| `AncestorsRev.AncestorsRev.Next` | lib/archive.rs:1541-1594 | yields the ancestors from the start height to the block in ascending order, each once, across all batches, and nothing when the start is above the end |
| `AncestorsRev.IterMissingBodies` | lib/archive.rs:1044-1058 | exactly the blocks without a body, oldest first |
| `AncestorsRev.MissingExactly` | lib/archive.rs:1044-1058 | a block is left over if and only if it is among the blocks and has no body |
| `AncestorsRev.MissingInOrder` | lib/archive.rs:1044-1058 | the blocks that are left over keep their order |
| `Bmm.VerdictIsFinal` | lib/archive.rs:849-901 | whether a mainchain block verifies a sidechain block never changes as more blocks arrive |
| `Bmm.SharedVerdict` | lib/archive.rs:779-901 | two archives that hold the same about the mainchain blocks both know give the same verdict at each of them, whatever else each holds |
| `Bmm.VerifiedParentIsLower` | lib/archive.rs:779-843 | the parent of a verified block is verified strictly lower on the same lineage, and was built on a strict ancestor of the mainchain block that the child was built on |
| `Bmm.InfosAncestorClosed` | lib/archive.rs:855-861 | all mainchain ancestors of a stored block are stored |
| `Archive.Archive.PutHeader` | lib/archive.rs:720-846 | the verdict table stays exact: verified exactly when the block commits to the header, its parent is the block built on, and the sidechain parent is verified in its ancestry; it says exactly when a header is refused and why, and a known header changes nothing in the tree |
| `Archive.Archive.PutMainBlockInfo` | lib/archive.rs:849-901 | the verdict table stays exact when a mainchain block arrives after the headers |
| `Archive.Archive.PutMainHeaderInfo` | lib/archive.rs:903-976 | the tree grows by one header whose total work is its own on top of its parent's, and no verdict changes |
| `Archive.JudgementIsTrue` | lib/archive.rs:779-901 | judging by the recorded verdicts of the parent gives the true verdict |
| `Archive.VerdictsAgree` | lib/archive.rs:779-901 | two archives, filled in whatever order and with whatever other forks, agree on every pair of blocks both know |
| `ForkChoice.SelectTip` | lib/archive.rs:1240-1457 | the archive's searches compute the declarative preference, without underflow; the rows of `ForkRule` say what it is |
| `ForkChoice.BetterTip` | lib/archive.rs:1240-1262 | there is no preferred tip exactly when the tips are equal or both are genesis blocks |
| `ForkRule.HigherWithWorkWins` | lib/archive.rs:1240-1270 | a genesis block loses against every other, and greater height wins when it comes with no less work |
| `ForkRule.EqualHeightRule` | lib/archive.rs:1270-1299 | at equal height the tip with less work wins if one mainchain block is an ancestor of the other, and the one with more work otherwise |
| `ForkRule.LowerWorkRule` | lib/archive.rs:1300-1362 | greater height with less work wins if and only if some ancestor of the tip has at least the other tip's height and was built strictly below a common ancestor of the two mainchain blocks; otherwise the other tip wins, whichever is asked first |
| `ForkRule.TieRule` | lib/archive.rs:1363-1457 | at equal height and work the second tip wins if and only if the highest of its ancestors built before the fork is higher than the first tip's, or as high with less work in the mainchain block on top of the one it was built on, or the first tip has none |
| `ForkRule.SameBlockRule` | lib/archive.rs:1363-1367 | of one block with two verifications of equal work the first stays |
| `ForkChoice.PreferenceIsMutual` | lib/archive.rs:1240-1457 | a tip that wins as the second argument also wins as the first: two nodes never swap tips |
| `ForkChoice.IncumbentsTieExactly` | lib/archive.rs:1240-1457 | each of two tips keeps its own node exactly when height, work and the records before the fork all tie |
| `ForkChoice.SharedLineageRule` | lib/archive.rs:1262-1300 | on one mainchain lineage the verified tip with greater height always wins; at equal height the one with less work does, which is not what the comment at lines 1231-1232 says |
| `ForkChoice.WorkMonotone` | lib/archive.rs:911-925 | total work never decreases along a mainchain lineage |
| `HeaderWork.TotalWorkIsSum` | lib/archive.rs:917-926 | the total work of a header is the sum of the works in all headers of its chain |
| `MemPool.MemPool.Put` | lib/mempool.rs:97-133 | the exact new pool, or the exact error and no change: a pooled transaction changes nothing, and another is accepted exactly when it conflicts with no pooled outpoint or nullifier and not with itself; both indexes stay exact |
| `MemPool.MemPool.Delete` | lib/mempool.rs:135-162 | removes exactly the transaction and everything reachable from it through spent outputs, and ends |
| `MemPool.MemPool.ConnectBlock` | lib/mempool.rs:210-228 | evicts exactly the transactions that share an id or a nullifier with the block and their descendants, none that conflicts is left, and every remaining one is proved anew, or an error exactly when some proof cannot be made; the resulting pool is one function of the old one |
| `MemPool.MemPool.DisconnectBlock` | lib/node/net_task.rs:247-250 | the transactions of a disconnected block are put back last to first and everything is proved anew, or exactly the first refusal |
| `PoolRules.AddedExactly` | lib/mempool.rs:97-133 | a transaction is added if and only if it is pooled already, or spends no outpoint and uses no nullifier twice and shares none with a pooled one |
| `PoolRules.PooledApart` | lib/mempool.rs:97-133 | no two pooled transactions share an input or a nullifier |
| `PoolRules.KeptExactly` | lib/mempool.rs:210-228 | after a block is connected a pooled transaction is gone if and only if it is in the block, uses a nullifier that the block uses, or spends an output of one that is gone; all others are unchanged but for proofs of their own inputs against the new accumulator |
| `PoolRules.ReturnedExactly` | lib/node/net_task.rs:247-250 | after a block is disconnected the pool holds its transactions besides, all with proofs against the accumulator before it; each of them was pooled, or clean and without a clash |
| `MemPool.ClosureIsUnique` | lib/mempool.rs:135-162 | what the deletion removes is determined by the pooled ids and the roots |
| `MemPool.MemPool.RegenerateProofs` | lib/mempool.rs:188-207 | every pooled transaction keeps all but its proof, in whatever order they are visited |
| `MemPool.ClosureUnion` | lib/mempool.rs:135-162 | removing two closures one after the other removes the closure of both |
| `MemPool.ClaimKeepsExact` | lib/mempool.rs:108-129 | claiming all keys of a new transaction keeps an index exact |
| `MemPool.ReleaseKeepsExact` | lib/mempool.rs:139-157 | releasing all keys of a pooled transaction keeps an index exact |
| `Replay.BatchesPartition` | lib/node/net_task.rs:355-389 | the batches handed to the blocks of a chain are, one after another, all mainchain blocks up to the one the tip was built on, in order, each exactly once |
| `Replay.SharesPartition` | lib/node/net_task.rs:355-389 | the same of any chain that was connected with own shares, whatever bodies are stored now |
| `Replay.ShareHolds` | lib/node/net_task.rs:355-389 | the share of a block holds exactly the mainchain blocks of the lineage it was built on, down to but without the one its parent was built on |
| `Replay.SliceAt` | lib/node/net_task.rs:355-375 | the blocks of a share are in order of height, each with its own events |
| `Replay.CanonicalExactly` | lib/node/net_task.rs:300-389 | a log is the canonical one of its tip if and only if it is chained, every tip got its own share, and its bodies are the stored ones |
| `Replay.VerifiedClimbs` | lib/archive.rs:779-843 | along a verified chain the mainchain blocks built on climb strictly along one lineage |
| `Replay.CanonicalPrefix` | lib/node/net_task.rs:326-354 | dropping tips off the log of a chain leaves the log of an ancestor |
| `Replay.PlanIsCanonical` | lib/node/net_task.rs:355-389 | what the driver deals out to the blocks of a verified chain, starting from any prefix that it keeps, is each block's own share |
| `Replay.PlanIsCanonicalExactly` | lib/node/net_task.rs:377-389 | when a whole chain is applied, the shares dealt out are the right ones if and only if its genesis block was not built on the zero hash, or there is nothing to share |
| `Replay.ZeroHashSweeps` | lib/node/net_task.rs:377-389 | a search for the zero hash takes every mainchain block that is left |
| `Replay.SharesStable` | lib/archive.rs:720-976 | the share of every connected tip stays its own as headers and mainchain blocks arrive |
| `Replay.CanonicalStable` | lib/archive.rs:720-976 | the canonical log of a block does not change as headers, mainchain blocks and further bodies arrive |
| `Reorg.FillData` | lib/node/net_task.rs:378-389 | pops exactly the blocks up to the one the header was built on, or all of them if it is not there |
| `Reorg.Node.MainBlocksAbove` | lib/node/net_task.rs:355-375 | the blocks of the lineage above the common ancestor's, newest first, never failing on a verified tip |
| `Reorg.Node.BlocksToApply` | lib/node/net_task.rs:300-325 | the blocks down to the common ancestor, or down to genesis when the new tip is itself the common ancestor, or an error exactly when a body is missing |
| `Reorg.Node.ConnectOne` | lib/node/net_task.rs:114-131 | the state, then the header in the archive, the archived accumulator and frontier, and the mempool: everything after one more tip, or exactly which part refuses it and why |
| `Reorg.Node.DisconnectOne` | lib/node/net_task.rs:233-250 | the state before the tip as its parent's archived accumulator and frontier give it, and the mempool with the block's transactions put back, or the exact error |
| `Reorg.Node.AcceptBlock` | lib/node/net_task.rs:127-130 | storing the header of a connected block again is refused exactly when a mainchain successor has no info, changes no known header, and the mempool is updated exactly; an error leaves both alone |
| `Reorg.Node.Rewind` | lib/node/net_task.rs:326-354 | the number of disconnects lands on the last common ancestor; everything is as it was there, except that the frontier is the last one found on the way, and it is the right one exactly when it is on file or nothing was appended; only the mempool can refuse |
| `Reorg.Node.ApplyOne` | lib/node/net_task.rs:377-398 | a block is given its share of what is left and reaches the next state and mempool of the run, or is refused as the state, the archive or the mempool refuses it |
| `Reorg.Node.CommitIfBetter` | lib/node/net_task.rs:399-416 | the tip with its best verification is committed exactly when the original tip loses against it |
| `Reorg.Node.ApplyBlocks` | lib/node/net_task.rs:376-416 | the blocks are connected one by one up to the first that is refused, and the log and mempool last committed are those up to the last preferred tip |
| `Reorg.Node.BestMainVerification` | lib/archive.rs:515-542 | a verifying block with the greatest total work, or an error exactly when nothing verifies the block |
| `Reorg.Node.CurrentTip` | lib/node/net_task.rs:266-279 | the connected tip with a verification of the greatest total work, which always exists |
| `Reorg.Node.ReorgToTip` | lib/node/net_task.rs:258-423 | the result is the specified outcome: nothing when the tip is not preferred, an error exactly when a body is missing, the mempool refuses what is disconnected, or a block of the target is refused, named with the part that refuses it and why, and success otherwise; the log and the mempool committed in the end are those of the target, or those up to the last preferred tip; every state is the one its log leads to |
| `PoolRun.AlongConnects` | lib/node/net_task.rs:114-130 | along a chain that the mempool goes with, the state connects, and a refusal by the state is the one of the run |
| `PoolRun.EmptyAlong` | lib/node/net_task.rs:114-130 | an empty mempool refuses no block and stays empty, so that only the state and mainchain successors without info do |
| `PoolRun.StepSucceedsExactly` | lib/node/net_task.rs:114-131 | a tip is connected if and only if the state accepts it, its mainchain block is known and all that block's children have infos, and the mempool can be proved anew |
| `Reorg.Node.PutMainHeaderInfo` | lib/archive.rs:903-976 | a mainchain header arrives: the connected chain, its state and its log stay as they must be |
| `Reorg.Node.PutMainBlockInfo` | lib/archive.rs:849-901 | the same for a mainchain block |
| `Reorg.Node.PutHeader` | lib/archive.rs:720-846 | the same for a sidechain header |
| `Reorg.Node.PutBody` | lib/archive.rs:692-712 | a body is stored whatever was stored before, and the node stays in order; it is refused exactly when its header is not stored |
| `Reorg.Node.PutTransaction` | lib/mempool.rs:97-133 | a transaction arrives in the mempool, or is refused and nothing changes |
| `Goal.RefusedExactlyBehind` | lib/node/net_task.rs:291-325 | a block of the target is refused for not extending the tip if and only if the new tip is the current tip or one of its ancestors, whatever the mempool holds |
| `Goal.SucceedsExactly` | lib/node/net_task.rs:258-423 | a reorganisation on a chain with a proper genesis block, the kept bodies being those stored, succeeds if and only if the new tip is preferred and ahead, its bodies are stored, the mempool takes back what is disconnected, and state, archive and mempool accept the new blocks, each with its own share of events |
| `Goal.NewNodeSucceedsExactly` | lib/node/net_task.rs:258-423 | a new node with an empty mempool reaches a tip if and only if its bodies are stored, its whole chain connects from genesis with each block's own share, and every mainchain successor of a block built on has its info |
| `Goal.NeverBackwards` | lib/node/net_task.rs:280-325 | towards the current block or an ancestor of it: attempted if and only if it is a strict ancestor, no genesis block, and verified with more total work; then all tips above it are disconnected and the first block is refused |
| `Goal.TargetIsCanonical` | lib/node/net_task.rs:355-389 | the target of a reorganisation ahead is the canonical log of the new tip, whatever tips were connected beyond the common ancestor |
| `Goal.PreferenceIsOneWay` | lib/node/net_task.rs:280-290 | of two tips at most one is preferred to the other, so no node goes back and forth between them |
| `Goal.LastCommitIsLast` | lib/node/net_task.rs:399-416 | the last commit is at the last tip on the way that is preferred to the original one, and there is none if and only if no tip is |
| `Behind.SameBlockNeverPreferred` | lib/node/net_task.rs:280-290 | the block of the current tip, verified elsewhere, is never preferred to the current tip with its best verification |
| `Behind.AncestorPreferredExactly` | lib/node/net_task.rs:280-290 | a verified strict ancestor of the verified current tip is preferred to it if and only if it is no genesis block and its mainchain block has more total work |
| `Behind.AncestorIsVerified` | lib/archive.rs:515-542 | every ancestor of a verified block is verified, so each block on the way has a verification |
| `ExampleFork.PreferredButBehind` | lib/node/net_task.rs:291-325 | a concrete archive in which an ancestor of the current tip, verified again on a fork with more work, is preferred to it, and the reorganisation attempted is refused |
| `ExampleFork.SomeNodeIsOnB3` | lib/node/net_task.rs:93-132 | there is a node in the position that this supposes |
| `ExampleFork.FirstBlockGetsEverything` | lib/node/net_task.rs:377-389 | a concrete archive in which the first block applied is handed the events of all mainchain blocks |
| `ExampleFork.NewNodeReachesB2` | lib/node/net_task.rs:258-423 | the hypotheses of a reorganisation are met by a new node on that archive, and it succeeds |
| `ExampleFork.NodeSwitchesToC3` | lib/node/net_task.rs:258-423 | they are met by a node on one fork and a tip on another: it disconnects its tip, connects the other one, and succeeds |

## Left out

- PegRepeats.EventsRestoredExactly: lists in which a bundle fails again without having been resubmitted; one such repeat is the subject of PegFailures.RepeatedFailureExactly. Several in one list, or one together with repeated confirmations, are not characterised: each may take back what decides about the others.
- PegBlockRoundTrip.BlockRoundTrip: blocks with a repeated failure, likewise; one is the subject of PegFailures.RefailedBlockRoundTrip.
- Reorg.Node.DisconnectOne: the peg data handed to the disconnect is the batch that was connected; its recomputation from the event-block tables (lib/node/net_task.rs:150-232) is not modelled.
- Reorg.Node.ReorgToTip: how it goes on from a state whose frontier was not found, other than that the frontier is the one Reorg.Node.Rewind names; and the index of transactions by block that storing a body keeps (lib/archive.rs:703-712).
- MemPool.MemPool.ConnectBlock: conflicts over spent outputs, which the code does not look for; whether proofs can be made is a parameter.
- Validation (lib/state/block.rs:22-154) as a second copy: it performs the checks of prevalidation in the same order and returns the fees only.
- Validation.Prevalidate: the limits on body size and signature operations are floating-point functions of the height and enter as parameters; the failure of serialization is not modelled.
- Error payloads (hashes, outpoints, amounts carried by errors): only the kind of error is modelled.
- Transitivity of the fork choice, which the source does not promise.
- That the outputs of a pending bundle stay unspent, which nothing in the code keeps.
- Truncation of output indices to 32 bits, which the body size limit rules out.
- The pool's balance never going negative, which Orchard's own proofs ensure; conservation is stated with the pool as a quantity of its own.
- The database, its cursors and version records; sequence numbers of event blocks are list positions.
- The graphical and command-line programs, RPC, networking, peers, mailboxes, logging and the mainchain client.
- The wallet: keys, note decryption, coin selection and bill splitting.
- Utreexo, Halo 2, ed25519 and blake3 internals.
