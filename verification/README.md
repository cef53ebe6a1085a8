# zboot: a verified model

zboot manages boot environments (BEs) on ZFS root pools: it snapshots and forks them, chooses which one boots next,
drops them, and replicates them between pools. Its verbs are short sequences of atomic `zfs` and `zpool` commands over
shared state. This project models that state and those sequences in Dafny and proves what they keep, over single calls
and over whole runs.

`dafny verify dfyconfig.toml` checks everything.

## How it is put together

- `World` is the host: a table of datasets with their snapshots (oldest first, each with a GUID), origins and
  properties, and the pools' `bootfs`. The class `Zfs` holds the current state; every command goes through `Zfs.Commit`,
  which also appends the state it leaves to a ghost trace, so that a crash point is a state of the trace.
- Each verb is a method on `Zfs`, step by step as the source does it, proved equal to a specification function on
  states. What comes from outside — the clock, typed confirmations, the command that fails, the order a listing is
  printed in — is a parameter, so a result about one verb holds for every answer and every failure. Results about whole
  runs say which steps they admit; a failure they exclude has an exact condition of its own.
- The lemmas are about the specification functions.

| file | models |
|---|---|
| `Text` | binding lists, pair pointers and snapshot references as text; string order |
| `Snapshots` | snapshot lists and the comparisons replication makes between two of them |
| `World` | the ZFS state |
| `Transfer`, `Safety`, `Guarantees`, `Progress`, `Outcomes` | push, pull and mirror between two datasets: what they keep, when they succeed, what they leave in the properties |
| `Primary`, `PairRuns`, `Links` | failover; the readonly rail and the common base over whole runs of a pair |
| `Effects` | which side push, pull and mirror read and which they write, and what arrives |
| `Order`, `Mirror` | creation order over a whole host; the bulk mirror walk |
| `Status` | the ahead/behind marker; the active boot environment |
| `Default`, `Bindings`, `BindingRuns`, `Rollback` | next-boot switch, attached datasets, fork, rollback |
| `Clones`, `Promotions`, `Drop` | `zfs promote`, histories, the promote loop, drop |
| `Lifecycle` | creation order over runs of every verb that changes snapshots, clones or names |
| `Pointers`, `PointerRuns`, `CrossPools` | pair, unpair, push and pull targets, rename; the pointer graph, and pairs across pools |
| `Lineage`, `Forest`, `Trees` | the origin guard, forest queries, the menu and status trees |
| `Calendar`, `Cpio` | dates in snapshot names; the initramfs overlay |
| `Witnesses` | hosts on which the promises of the documents fail |

ZFS itself is taken as follows. `snapshot` appends a fresh GUID and fails on a name in use.
`send -I prev new | receive -F` cuts the destination after `prev` and appends the source's snapshots after `prev` up to
`new`; it fails, changing nothing, when `prev` is not older than `new` or a name is taken, and when interrupted it may
leave its first snapshots behind. `rollback -r` cuts the list after the named snapshot. `promote` moves the parent's
snapshots up to the origin onto the clone, exchanges the two origins, lets the other clones of what moved follow, and
fails on a clash of snapshot names. `clone` and a full stream carry every `zboot:*` property of their source. `rename`
takes a dataset's snapshots, properties and clones along and leaves `bootfs` at the old name. `destroy` needs a dataset
without clones. Origins form no cycle: methods that depend on it take a ghost ranking of the datasets.

## Where the code does not do what its documents say

Each is proved, with the exact condition under which the promise does hold. Where a host is needed to see it fail,
`Witnesses` builds one, named with it.

- A forced rewind goes by snapshot *name*. When the destination has another snapshot of that name it can destroy
  snapshots no prompt listed (`Guarantees.RollbackCanExpose`, `Witnesses.RewindCanDestroyUnlisted`); it does not,
  exactly when nothing the source has up to the bound lies after the destination's bound (`Guarantees.RewoundLosses`).
- `primary` snapshots a mounted peer and leaves its readonly flag alone. If that peer is readonly, DESIGN.md's readonly
  invariant breaks (`PairRuns.PrimaryKeepsRailExactly`, `Witnesses.PrimaryCanBreakTheRail`).
- `primary` clears `bootfs` on its peer's pool only, so a third active pool stays active
  (`Primary.OneActiveAfterPrimary`, the same witness).
- A forced push onto a *writable* side can leave that side with snapshots of its own up to the common base
  (`Guarantees.OverwriteSettles`, `Witnesses.OverwriteCanLeaveDivergence`).
- A bootstrap to a second pool copies the source's pointer to the new dataset, so the new side points at the source's
  old peer instead of back (`Outcomes.BootstrapPairsExactly`, `Witnesses.BootstrapCanMispair`), which is not the 1:N
  fanout of DESIGN.md:293.
- The exit status of clearing a pointer is never looked at. `unpair` reports success whatever took effect
  (`Outcomes.UnpairUndoesPair`, `Witnesses.UnpairCanDoNothing`), and an ad-hoc copy whose clear fails keeps the pointer
  that came with it (`Outcomes.TransferOutcome`).
- `PairIsCrossPool` (DESIGN.md:238) fails for an unbounded `pull --name` within one pool
  (`CrossPools.CompletedPullCrosses`, `Witnesses.PullCanPairWithinAPool`), and for a new dataset on the pool its source
  already points at: as a bootstrap, or as any push or pull that fails before the copied pointer is cleared, or whose
  clear fails (`CrossPools.CompletedPushCrosses`, `CrossPools.FailedPushCrosses`, `Witnesses.PushCanPairWithinAPool`).
  It holds over runs without such steps (`CrossPools.RunKeepsCrossPool`).
- With several targets (DESIGN.md:293) a transfer to one prunes the anchors the others share with the source. The base
  with another target stays exactly when a snapshot it shares is no anchor, is the bound, or could not be destroyed
  (`Links.OtherBaseSurvives`, `Witnesses.CopyCanUnlinkAnother`).
- mirror's no-op is reachable only for a dataset mirrored onto itself (`Guarantees.NoOpExactly`).
- The promote loop reports failure after 256 promotions even when nothing is left to promote. Which clones it promotes
  depends on the order of the listing, and is known beforehand: it succeeds exactly when fewer than 256 listed clones
  start from a newer snapshot than every clone listed before them and each of those can be promoted
  (`Promotions.PromoteDependents`, `Witnesses.PromoteLoopRunsOut`). No listing runs it out of rounds exactly when at
  most 255 of the target's snapshots have clones (`Promotions.NoListingRunsOut`).
- `drop` can report an error after the dataset is gone, with some binding lists still naming it (`Drop.Run`,
  `Witnesses.DropCanFailLate`).
- `pair` does not check that the pools are root pools, and `drop` only clears pointers on root pools, so a drop can
  leave a pointer dangling (`PointerRuns.DropDangles`, `Witnesses.DropCanLeaveADanglingPointer`).
- `rename` rewrites its peers' pointers after `zfs rename`, not atomically with it (DESIGN.md:82). Stopped in between it
  leaves them dangling, and `bootfs` too when that was not written; no pointer is left dangling exactly when
  `zfs rename` failed, nothing pointed at the dataset, or every write went through and all its holders were other
  datasets on root pools (`PointerRuns.RenameDangles`, `PointerRuns.RenameKeepsBootfs`, `Witnesses.RenameCanDangle`).
- `rename` of a BE whose pointer names itself, or that is pointed at from outside the root pools, is not a relabelling
  even when nothing fails (`PointerRuns.RenameIsRelabelling`, `Witnesses.RenameCanMissAPointer`).
- `default` writes `bootfs` before the bound datasets' `canmount`. Stopped in between it leaves a dataset bound to the
  new active BE unmounted, until it is run again (`BindingRuns.DefaultCutShort`, `Witnesses.DefaultCanMisalign`,
  `Default.RerunConverges`). It is safe to stop anywhere exactly when, before it starts, the bound datasets are already
  set for the target (`BindingRuns.SafeToInterrupt`).
- `fork` clears the copied pointer only. A `primary` marker and a binding list of the forked BE itself stay on the new
  one (`Bindings.ForkedProps`); while a pool is active, such a list breaks the binding invariant
  (`BindingRuns.ForkKeepsAligned`, `Witnesses.ForkCanMisalign`).
- `attach` consults the dataset's own pool, and refuses when another pool is the active one; cut short between its two
  writes it leaves `canmount` unaligned (`BindingRuns.AttachCutShort`, `Witnesses.AttachCanMisalign`).
- `rollback` activates by bare name: with a same-named BE on another root pool it stops after the fork, and from a pool
  that is not a root pool it can activate that other BE (`Rollback.RollbackActivatesFork`,
  `Witnesses.RollbackCanActivateAnother`).
- Snapshot names stop sorting by time at year 10000 (`Calendar.NamesSortUntilYear9999`).
- The comment on the initrd overlay calls it idempotent; every run appends again (`Cpio.AppendIsNotIdempotent`), and a
  content of 2^32 bytes or more does not read back (`Cpio.OverlayRoundTrip`).

## Model

| member | source | states |
|---|---|---|
| Text.ListRoundTrip | core/src/types.rs:210-235 | a binding list survives being written and read back if and only if every key is plain (non-empty halves, no separator in them, no outer white space) |
| Text.ParseRenderParse | core/src/types.rs:210-235 | re-parsing the rendering of any list the parser returned gives that list |
| Text.FirstErrorWins | core/src/types.rs:216-225 | the first malformed part decides the error, whatever follows |
| Text.UnsetIsEmpty | core/src/types.rs:210-215 | an empty or unset property reads as an empty list |
| Text.TrimCuts | core/src/types.rs:210-213 | trimming takes white space off the two ends and nothing else |
| Text.BoundList.Parse | core/src/types.rs:210-227 | the parsing loop meets the recursive specification, errors included |
| Text.BoundList.Append | core/src/types.rs:238-242 | the method meets the function of the next row |
| Text.AppendKeyAdds | core/src/types.rs:238-242 | afterwards the key is in the list, added once and at the end if it was not there, and everything else is where it was |
| Text.BoundList.Remove | core/src/types.rs:245-249 | every occurrence goes, the rest keeps its order, and the result says whether there was one |
| Text.RemoveKeyMembers | core/src/types.rs:245-249 | exactly the other keys stay; a list without the key is unchanged |
| Text.RemoveUndoesAppend | core/src/types.rs:238-249 | removing a key just appended restores the list, in order |
| Text.PointerRoundTrip | core/src/replication.rs:37-56 | a pair pointer survives its text form if and only if it is plain |
| Text.ParsedPointer | core/src/replication.rs:37-56 | a pointer that parses is plain and renders to its trimmed input |
| Text.CanonicalParts | cli/src/cmd/default.rs:519-523 | pool and leaf of a canonical path are the two halves of its pointer |
| Text.SnapshotRefRoundTrip | core/src/types.rs:97-113 | `dataset@name` survives parsing if and only if neither half is empty and the dataset has no `@` |
| Snapshots.AnchorOfFullName | core/src/replication.rs:149-152 | on a full path the anchor test looks only at the part after the last `@` |
| Snapshots.NoDivergence | cli/src/zfs_ops.rs:496-511 | the divergence list is empty if and only if every operator snapshot of the destination is on the source |
| Snapshots.SelectedMember | cli/src/zfs_ops.rs:518-537 | what a comparison lists: operator snapshots whose GUID is, or is not, in the given set |
| Snapshots.DivergenceListed | cli/src/zfs_ops.rs:496-511 | the divergence prompt lists exactly the destination's operator snapshots the source's operator does not have |
| Snapshots.RewindListed | cli/src/zfs_ops.rs:518-537 | the rewind prompt lists exactly the destination's operator snapshots that match one taken on the source after the bound |
| Snapshots.AfterLatestShared | cli/src/zfs_ops.rs:415-427 | nothing newer than the chosen base is on the destination |
| Snapshots.TailIsDestOnly | cli/src/zfs_ops.rs:386-427 | between comparable lists, everything a receive would cut off after the base is unknown to the source |
| Snapshots.NothingPastTheBase | cli/src/cmd/push.rs:212-228 | without divergence no operator snapshot lies past the base |
| Snapshots.PrunedKeeps | cli/src/zfs_ops.rs:430-450 | pruning leaves the operator's snapshots alone, in order |
| Snapshots.PrunedMembers | cli/src/zfs_ops.rs:430-450 | what goes: anchors other than the kept one whose destroy succeeds |
| Snapshots.SubsetIsSubsequence | DESIGN.md:245-261 | with a common creation order, having no GUID of one's own is being a subsequence |
| World.Zfs.Commit | cli/src/zfs_ops.rs:237-261 | a command takes effect whole or not at all, and leaves a state on the trace |
| World.CopiedRows | cli/src/zfs_ops.rs:299-340 | a copy takes over the marker, binding list, pointer and primary marker of its source, and no other row changes |
| Transfer.PreviousAnchorOnDest | cli/src/zfs_ops.rs:415-427 | the loop returns the newest source snapshot whose GUID the destination has |
| Transfer.PruneOldAnchors | cli/src/zfs_ops.rs:430-450 | the destroy loop leaves the pruned list, skipping destroys that fail |
| Transfer.SendReceive | cli/src/zfs_ops.rs:299-408 | incremental from the newest shared snapshot, full otherwise; on failure only what an interrupted stream delivered |
| Transfer.PushOne | cli/src/cmd/push.rs:177-400 | one push, step by step, is the transfer function of the state, the prompts and the failure |
| Transfer.ReceiveInto | cli/src/cmd/pull.rs:208-338 | one pull is the same function in the other direction, with readonly lifted even on a mounted side |
| Transfer.PushOnePair | cli/src/cmd/mirror.rs:169-256 | one pair of a mirror is the same function, unbounded and without pointer writes |
| Transfer.CheckAndTransfer | cli/src/cmd/push.rs:205-259 | the divergence and rewind refusals come before anything is written |
| Transfer.WritePointers | cli/src/cmd/push.rs:355-384 | the pointers and markers each push mode writes, where it stops when a pointer cannot be written, and that it goes on when a clear or a marker cannot |
| Transfer.RollBack | cli/src/cmd/push.rs:311-350 | the rewind path: rollback, contract, readonly; no pointers and no prune |
| Transfer.Conclude | cli/src/cmd/push.rs:347-393 | contract, readonly, pointers, prune, in that order, each only after the one before |
| Guarantees.UnforcedNeverDestroys | cli/src/cmd/push.rs:212-259 | without force, bounded or not, whatever fails: the destination's operator snapshots stay a prefix of what it ends with, the source's are unchanged, and unless refused no divergence is left |
| Guarantees.TransferStaysReady | cli/src/cmd/push.rs:177-400 | every outcome leaves the pair as comparable as it was and touches no third dataset |
| Guarantees.LossesWereConfirmed | cli/src/cmd/push.rs:212-259 | whatever a forced push, pull or mirror destroys was listed at a prompt and confirmed, for a rewind when the destination exposes nothing up to the bound |
| Guarantees.ShownExactly | cli/src/cmd/push.rs:212-259 | what the two prompts list, snapshot by snapshot |
| Guarantees.RollbackLosses | cli/src/zfs_ops.rs:518-537 | a rollback loses only listed snapshots if and only if the destination exposes nothing up to the bound |
| Guarantees.RewoundLosses | cli/src/cmd/push.rs:230-259 | the same for a completed forced rewind |
| Guarantees.RollbackCanExpose | cli/src/cmd/push.rs:230-259 | two lists for which the rewind destroys an unlisted snapshot |
| Guarantees.SameBoundExposesNothing | cli/src/cmd/push.rs:230-259 | when both bounds are the same snapshot nothing is exposed |
| Guarantees.SentContents | cli/src/zfs_ops.rs:376-408 | after a completed incremental transfer the destination holds what it had up to the base, then the source's snapshots up to the anchor |
| Effects.TransferArrives | cli/src/cmd/push.rs:311-393 | what any completed transfer delivers: on a common base the destination up to it and then all that was asked for after it; without one everything asked for, or of a clone exactly the anchor |
| Effects.PushGoesToThePeer | cli/src/cmd/push.rs:51-158 | whatever the outcome, a push without target leaves the operator's snapshots and the readonly flag of the dataset it is called on; completed, the peer is readonly and holds what was asked for |
| Effects.PushGoesToTheTarget | cli/src/cmd/push.rs:51-158 | the same with a target: a pool gets `<pool>/ROOT/<own name>` and is paired unless bounded, a path is taken as it is and ends unpaired, and neither leaves the root pools |
| Effects.PullComesFromThePeer | cli/src/cmd/pull.rs:148-203 | whatever the outcome, a pull leaves the peer's operator snapshots and readonly flag alone; completed, the local side is readonly and holds what was asked for |
| Effects.PullNewComesFromTheRemote | cli/src/cmd/pull.rs:65-145 | an initial pull reads the remote, writes `<pool>/ROOT/<name>`, which must not exist, and leaves it readonly with what was asked for |
| Effects.NothingWithoutPeer | cli/src/cmd/pull.rs:180-190 | without a pointer, or with a peer that is gone, push and pull change nothing |
| Effects.EveryCommandWent | cli/src/cmd/push.rs:311-393 | a transfer that reports success had each of its commands succeed |
| Effects.InterruptedStaysReadonly | cli/src/cmd/push.rs:311-346 | an interrupted transfer sets readonly again where it had lifted it |
| Effects.LeftoverCopiesReadonly | cli/src/zfs_ops.rs:299-340 | a new dataset left behind by a transfer that failed once delivered is readonly exactly when its source is |
| Effects.LiveStaysReadonly | cli/src/cmd/push.rs:261-275 | a mounted readonly destination stays readonly through any push or mirror, whatever fails |
| Guarantees.OverwriteSettles | cli/src/cmd/push.rs:212-228 | a forced overwrite settles a divergence if and only if the receiver had nothing of its own up to the base |
| Guarantees.AnchorOnBothSides | cli/src/cmd/push.rs:386-393 | after a completed transfer both sides hold the same anchor and no other whose destroy succeeded, and the destination is readonly |
| Guarantees.NoOpExactly | cli/src/cmd/mirror.rs:233-245 | a transfer reports a no-op if and only if it mirrors a dataset onto itself and the steps before the stream go through |
| Outcomes.TransferOutcome | cli/src/cmd/push.rs:347-384 | a completed transfer leaves the receiver noauto, marked and readonly, and exactly these pointers and markers: a bootstrap pairs the two with the source primary unless the destination already points somewhere, an ad-hoc copy ends unpaired when its clear took effect, everything else is as the stream left it, and a rewind touches none; no other property changes |
| Outcomes.BootstrapPairsExactly | cli/src/cmd/push.rs:357-376 | a completed bootstrap is mutual if and only if the destination, or for a new one the source, pointed nowhere or at the source |
| Progress.UnboundedSucceedsExactly | cli/src/cmd/push.rs:177-400 | nothing failing, an unbounded push, pull or mirror between any two datasets completes if and only if the destination is not live, a divergence was forced and confirmed, the anchor's name is free, the stream lands, and a bootstrap has two canonical names |
| Progress.BoundedSucceedsExactly | cli/src/cmd/push.rs:177-400 | the same for a bounded push or pull, which besides must not ask for a rewind |
| Progress.FirstTransferSucceedsExactly | cli/src/cmd/push.rs:311-384 | a transfer to a dataset that does not exist, the bootstrap of a pair included, completes if and only if the anchor's name is free, of a clone it is a push, and a bootstrap has two canonical names |
| Progress.RewindSucceedsExactly | cli/src/cmd/push.rs:230-259 | nothing failing, a transfer that asks for a rewind cuts the destination at its own snapshot of that name if and only if it has one, is not live, and the rewind, and any divergence, was forced and confirmed |
| Primary.Run | cli/src/cmd/primary.rs:34-153 | the flip, step by step, is its function of state, clock and failure |
| Primary.PrimaryEffect | cli/src/cmd/primary.rs:75-132 | after any outcome: at most one snapshot more, on a mounted mutual peer; readonly off the new primary and, only on an unmounted mutual peer, on |
| Primary.PrimarySucceedsExactly | cli/src/cmd/primary.rs:34-153 | nothing failing, the flip is refused exactly for a missing or unpaired dataset or a name out of form, already done exactly for one marked primary, and stopped exactly by a taken guard name on a mounted peer |
| Primary.PrimarySpares | cli/src/cmd/primary.rs:72-114 | a peer that does not point back, and any third dataset, keeps its snapshots, marker and readonly flag |
| Primary.PrimaryLeaves | cli/src/cmd/primary.rs:75-139 | a completed flip across pools: readonly, markers, guard snapshot and `bootfs` of both sides, everything else as before |
| Primary.OneActiveAfterPrimary | cli/src/cmd/primary.rs:116-139 | the BE ends up as the only active one if and only if no third pool was active |
| Primary.PromotedMarkers | cli/src/cmd/primary.rs:92-97 | a completed flip marks one side primary and a mutual peer not, and moves no pointer |
| Primary.PrimaryIsIdempotent | cli/src/cmd/primary.rs:63-68 | asking again changes nothing |
| PairRuns.MoveKeepsRail | cli/src/cmd/push.rs:177-400 | an unforced transfer in either direction, whatever fails, keeps every readonly side covered by its peer |
| PairRuns.ForcedMoveKeepsRail | cli/src/cmd/push.rs:230-259 | so does a forced transfer, rewinds included, from the writable side to the readonly one |
| PairRuns.PrimaryKeepsRailExactly | cli/src/cmd/primary.rs:72-114 | a completed flip keeps the rail if and only if the demoted side has nothing of its own or, when mounted, is not readonly |
| PairRuns.RunKeepsRail | DESIGN.md:245-261 | the rail holds in every state a permitted run reaches |
| PairRuns.ReadonlyInvariant | DESIGN.md:245-261 | after every permitted run a readonly side's operator snapshots are a subsequence, by GUID and order, of its peer's |
| PairRuns.AlwaysFastForward | DESIGN.md:257-258 | along such runs a push to the readonly side never meets divergence |
| Links.BaseIsFound | cli/src/zfs_ops.rs:415-427 | the base search succeeds if and only if the two lists share a snapshot |
| Links.StepKeepsLink | cli/src/cmd/push.rs:386-393 | no permitted step, failed or stopped ones and prunes included, loses the last shared snapshot |
| Links.LinkedTransferIsIncremental | cli/src/cmd/push.rs:311-338 | between linked datasets a completed unbounded transfer is incremental |
| Links.OtherBaseSurvives | cli/src/zfs_ops.rs:430-450 | after a completed transfer the source still shares a snapshot with another dataset if and only if one they shared is no anchor, is the bound, or could not be destroyed |
| Links.BaseAlwaysSurvives | cli/src/cmd/push.rs:386-393 | after one completed transfer and any permitted run, the next completed unbounded transfer either way is incremental |
| Order.DatedIsReady | cli/src/zfs_ops.rs:168-190 | on a host in creation order any two datasets are comparable |
| Order.TransferKeepsDated | cli/src/cmd/push.rs:177-400 | every transfer, forced or failed, keeps the whole host in creation order |
| Order.UnforcedLosesNothing | cli/src/cmd/push.rs:177-400 | on such a host no unforced push, pull or mirror, from any dataset to any other or to itself, costs any dataset of the host an operator snapshot |
| Lifecycle.SameSnapshot | cli/src/cmd/drop.rs:435-463 | a reference to a snapshot still names that snapshot after a promotion, wherever it now lives |
| Lifecycle.PromoteKeepsAged | cli/src/cmd/drop.rs:435-463 | a promotion keeps every list in creation order, because a clone's own snapshots are newer than its origin, which it keeps too |
| Lifecycle.TransferKeepsAged | cli/src/cmd/push.rs:177-400 | a transfer keeps a host with clones in creation order, every origin in place and a clone's own snapshots newer than it, when clones of the source start from snapshots that are no anchors or cannot be destroyed, clones of the destination from no anchors and without force, and a destination that is itself a clone shares a snapshot with the source |
| Lifecycle.RunKeepsAged | cli/src/zfs_ops.rs:168-190 | over runs of snapshot, fork, drop, rename, primary, default, also stopped on the way, and of such transfers, whatever fails, the host stays in creation order and any two datasets comparable |
| Mirror.ListOutgoingTargets | cli/src/cmd/mirror.rs:123-164 | the existing peer and every other dataset pointing at the primary, each once |
| Mirror.Walk | cli/src/cmd/mirror.rs:34-84 | the nested loops visit exactly every dataset marked primary on a root pool with its existing peer and the datasets on root pools that point at it, each once, the summary counts each visit by its outcome and each primary without targets as skipped, and unforced nothing of the operator's is lost on any dataset |
| Mirror.WalkIsSafe | cli/src/cmd/mirror.rs:52-76 | the same for every sequence of visits and every failure |
| Mirror.WalkSpares | cli/src/cmd/mirror.rs:52-76 | a dataset no visit writes to keeps the operator's snapshots and its readonly flag, forced or not |
| Mirror.VisitDelivers | cli/src/cmd/mirror.rs:169-256 | a visit counted as synced leaves its target readonly with everything of its primary's |
| Mirror.TallyCounts | cli/src/cmd/mirror.rs:56-84 | synced and no-op are the numbers of visits that ended so, and the four counts add up to all visits |
| Mirror.RefusedForDivergence | cli/src/cmd/mirror.rs:169-256 | what counts as refused is, without --force, a refusal for anything but a live destination |
| Mirror.MirrorKeepsGraph | cli/src/cmd/mirror.rs:169-256 | a mirror leaves datasets, pointers, primary markers and pools as they were |
| Status.StatusCounts | core/src/replication.rs:92-115 | the marker's numbers are those of the snapshots the two divergence prompts would list |
| Status.StatusPredictsPush | core/src/replication.rs:92-115 | with the anchor's name free, no name clash in the stream and the peer not live, the marker says in sync or ahead if and only if a plain push ends as sent |
| Status.StatusAfterTransfer | cli/src/cmd/push.rs:311-338 | after a completed unbounded transfer on a common base the marker is that of the two sides up to the base, in sync if and only if they held the same operator snapshots so far |
| Status.FindActiveBe | cli/src/cmd/snapshot.rs:99-112 | the first listed pool that boots one of its own BEs decides; none is found if and only if no listed pool does |
| Status.ActiveIsUnambiguous | cli/src/cmd/snapshot.rs:99-112 | the BE found does not depend on the order pools are listed in if and only if at most one pool boots one |
| Default.ResolvesExactly | cli/src/cmd/default.rs:296-325 | a name resolves to a BE if and only if it is the only one it can mean |
| Default.Run | cli/src/cmd/default.rs:52-278 | an unknown or ambiguous name changes nothing; otherwise exactly the target is active afterwards; from at most one active root pool, every state passed through has at most one |
| Default.RunDefault | cli/src/cmd/default.rs:105-278 | the writes reach the specified state, and every state on the way has losers cleared before the winner is set and canmount touched last |
| Default.ClearLosers | cli/src/cmd/default.rs:166-179 | the loop clears `bootfs` on exactly the other root pools |
| Default.MarkExActive | cli/src/cmd/default.rs:205-225 | readonly goes on exactly the unmounted former actives whose write succeeds |
| Default.ToggleBound | cli/src/cmd/default.rs:243-276 | canmount ends on for exactly the bound datasets whose list has the new active key |
| Default.CrashLeavesAtMostOne | DESIGN.md:70 | from at most one active root pool, every state an interrupted run leaves has at most one |
| Default.CompletedRunActivates | cli/src/cmd/default.rs:136-241 | whatever it started from, a completed run leaves exactly the target active and writable |
| Default.DefaultLeaves | cli/src/cmd/default.rs:136-276 | `bootfs` and `canmount` after a completed run, pool by pool and dataset by dataset; nothing else but readonly flags changes |
| Default.DefaultDemotes | cli/src/cmd/default.rs:155-225 | whatever a root pool booted before becomes readonly unless it is the target, mounted, or its write fails; nothing else becomes readonly, and only the target stops being |
| Default.RerunConverges | DESIGN.md:70 | running again after a crash at any point reaches the bootfs and canmount of the uninterrupted run |
| Default.DefaultIsIdempotent | cli/src/cmd/default.rs:9-11 | a second run changes nothing at all |
| Bindings.PurgeExactly | cli/src/cmd/drop.rs:471-493 | the key is gone everywhere, other keys stay, and the orphans are exactly the lists that held nothing else |
| Drop.ForkThenDropRestores | cli/src/cmd/fork.rs:146-156 | a completed fork and a completed drop of the fork, whatever is promoted on the way, leave every binding list as it was, in order, when the new key was in none |
| Bindings.Attach | cli/src/cmd/attach.rs:91-123 | the method meets the function of the next row, step by step |
| Bindings.AttachLeaves | cli/src/cmd/attach.rs:91-182 | refused, and nothing changed, exactly for a malformed list, a pool without bootfs or an entry that names no BE; done exactly when both writes work: the list is the parsed one, canmount is on exactly when the active key is in it, and no other dataset changes |
| Bindings.BesExist | cli/src/cmd/attach.rs:131-182 | the validation loop accepts exactly the lists whose every entry names a BE |
| Bindings.Detach | cli/src/cmd/attach.rs:81-85 | only the list goes, and nothing when the command fails |
| Bindings.DetachLeaves | cli/src/cmd/attach.rs:81-85 | every other list and every other property stays |
| Bindings.Fork | cli/src/cmd/fork.rs:114-231 | refusals before any write, then the clone with its copied properties, marker, pointer clear and the lists one by one until a write fails |
| Bindings.ForkedProps | cli/src/cmd/fork.rs:167-194 | after a completed fork the new BE is noauto and marked, has no pointer unless the clear failed, and carries the source's primary marker and binding list |
| Bindings.ForkLeaves | cli/src/cmd/fork.rs:114-181 | refused, and nothing changed, exactly for a bad name, a taken target or a broken lineage; done exactly when every command works; one row is new, a clone of the snapshot that does not mount by itself |
| Bindings.ForkExtendsLists | cli/src/cmd/fork.rs:140-231 | every list with the source's key and without the new one ends as it was followed by the new key; every other list is unchanged |
| BindingRuns.DefaultAligns | cli/src/cmd/default.rs:243-276 | `default` establishes the binding invariant from any state |
| BindingRuns.DefaultCutShort | cli/src/cmd/default.rs:241-276 | a `default` stopped anywhere, from at most one active pool, keeps the invariant until the winner is set, and from then on if and only if every bound dataset has been set |
| BindingRuns.DefaultNeverMisaligns | cli/src/cmd/default.rs:166-276 | no interruption of `default` breaks the invariant if and only if the bound datasets are already set for the target and for whichever BE the clearing of losers can leave active alone |
| BindingRuns.SafeToInterrupt | cli/src/cmd/default.rs:166-276 | from a state with the invariant and at most one active pool, if and only if they are already set for the target |
| BindingRuns.ForkKeepsAligned | cli/src/cmd/fork.rs:167-231 | a fork, however far it gets, keeps the binding invariant if and only if it did nothing, the BE it forks is not itself bound, or no single pool is active |
| BindingRuns.DropKeepsAligned | cli/src/cmd/drop.rs:471-493 | so does the drop of an inactive BE, however many lists its purge gets to |
| BindingRuns.AttachKeepsAligned | cli/src/cmd/attach.rs:91-123 | so does an attach that is refused or completes |
| BindingRuns.AttachCutShort | cli/src/cmd/attach.rs:117-122 | an attach whose second write fails keeps it if and only if that write had nothing to change |
| BindingRuns.RunKeepsAligned | cli/src/cmd/default.rs:250-276 | after every run of default, fork, drop, attach and detach, stopped or failing anywhere but where the three conditions above forbid: while one root pool is active, a bound dataset mounts exactly when the active key is in its list |
| BindingRuns.AlignedSinceDefault | cli/src/cmd/default.rs:250-276 | and from any state once `default` has run |
| Rollback.Run | cli/src/cmd/rollback.rs:159-246 | fork, then default by bare name; the fork stays when the second step fails |
| Rollback.RollbackActivatesFork | cli/src/cmd/rollback.rs:206-246 | the fork becomes the one active BE if and only if its pool is a root pool and no BE on any root pool had its name |
| Rollback.ForkHistory | cli/src/cmd/fork.rs:167-181 | the fork's history is the source's up to the snapshot, and no other history changes |
| Clones.InheritsIsInherited | cli/src/cmd/drop.rs:132-144 | the history equations have one solution |
| Clones.HistoriesExist | cli/src/cmd/drop.rs:132-144 | without cycles there is a table of histories: each dataset's is its origin's up to the origin snapshot, then its own snapshots |
| Clones.HistoriesUnique | cli/src/cmd/drop.rs:132-144 | ... and any such table agrees with it |
| Clones.SameInheritance | scripts/drop.sh:43-46 | every reference to a snapshot leads to the same inheritance after a promotion, wherever the snapshot now lives |
| Clones.PromoteKeepsHistory | cli/src/cmd/drop.rs:435-463 | a promotion changes no dataset's history, the parent's included |
| Clones.PromoteStaysRanked | cli/src/cmd/drop.rs:435-463 | a promotion leaves the origins without a cycle |
| Clones.PromoteShrinksClones | cli/src/cmd/drop.rs:426-434 | of the parent's clones exactly the promoted one and those of moved snapshots go, and none comes |
| Clones.DestroyKeepsHistory | cli/src/cmd/drop.rs:141-144 | destroying a dataset without clones costs no other dataset any history |
| Promotions.CloneCount | cli/src/cmd/drop.rs:426-434 | each promotion leaves the target with strictly fewer clones |
| Promotions.RunKeepsHistory | cli/src/cmd/drop.rs:435-463 | no number of promotions changes a history |
| Promotions.PromoteDependents | cli/src/cmd/drop.rs:435-463 | the bounded loop promotes, in order, the listed clones of ever newer snapshots of the state it starts from; it succeeds if and only if there are fewer than 256 of them and each can be promoted, and it fails with nothing left to promote if and only if there are exactly 256 and each can |
| Promotions.RecordsSuffice | cli/src/cmd/drop.rs:419-425 | promoting those clones leaves nothing cloned from the target |
| Promotions.NoListingRunsOut | cli/src/cmd/drop.rs:442-463 | no order of the listing exhausts the 256 rounds if and only if fewer than 256 snapshots of the target have clones |
| Drop.PurgeLists | cli/src/cmd/drop.rs:471-493 | the loop purges the lists up to the first write that fails, succeeds if and only if no list with the key is stuck, and reports exactly the orphans it made |
| Drop.ClearIncoming | cli/src/cmd/drop.rs:514-547 | pointers at the target on root pools are cleared, best effort |
| Drop.Run | cli/src/cmd/drop.rs:80-170 | refused, and nothing changed, exactly for an unknown name, what some pool boots, what is mounted at `/`, or anything but the typed confirmation; whatever happens, what any pool boots and what is mounted at `/` still exists; it destroys if and only if the promotions and the destroy itself go through, known from the state before, and reports success if and only if the list writes do too, with the key then in no list, other keys in place and emptied lists gone; every other dataset keeps its whole history, every origin exists and none forms a cycle |
| Drop.DroppedRows | cli/src/cmd/drop.rs:141-170 | of the other rows a drop changes only pointers at the target on root pools, and binding lists |
| Pointers.Pair | cli/src/cmd/pair.rs:39-85 | the checks before any write, then the writes up to the one that fails |
| Pointers.PairLeaves | cli/src/cmd/pair.rs:39-85 | refused, and nothing changed, exactly for one pool, a missing side, a first side already paired, a name out of form, or unforced when neither side holds all of the other's operator snapshots; the rows a completed pairing writes |
| Pointers.Unpair | cli/src/cmd/pair.rs:87-132 | the pointer and marker of a side and of a peer that points back are cleared where the command takes effect, a peer pointing elsewhere is left alone, and success is reported whatever failed |
| Pointers.UnpairLeaves | cli/src/cmd/pair.rs:87-132 | the side named, and a peer exactly when it points back, loses pointer and marker where the clears work; every other row stays |
| Outcomes.PairOutcome | cli/src/cmd/pair.rs:64-83 | a completed pair is mutual with the first as primary, or one-way with the second's pointer and marker untouched |
| Outcomes.UnpairUndoesPair | cli/src/cmd/pair.rs:87-132 | unpairing either side of a completed mutual pair always reports success; the pointer table is restored if and only if both clears took effect, and the markers are gone where theirs did |
| Pointers.PushTo | cli/src/cmd/push.rs:51-158 | where a push goes and with which mode; a dangling pointer is refused, a bounded bootstrap is unpaired |
| Pointers.PullNew | cli/src/cmd/pull.rs:65-145 | an initial pull never overwrites; unbounded it pairs the new side, bounded it leaves it unpaired when the clear takes effect |
| Pointers.Pull | cli/src/cmd/pull.rs:148-203 | an incremental pull comes from the existing peer |
| Pointers.FindIncoming | cli/src/cmd/rename.rs:83-110 | the nested loops list exactly the holders on root pools, each once |
| Pointers.Rename | cli/src/cmd/rename.rs:29-79 | rename, bootfs, then the pointers found before, until a write fails |
| Pointers.RenameMovesTheRow | cli/src/cmd/rename.rs:53-60 | every column of the dataset moves to the new name, clones follow, other rows stay |
| Pointers.RenameLeaves | cli/src/cmd/rename.rs:29-79 | when a rename is refused, and with nothing failing where `bootfs` and the listed pointers end |
| PointerRuns.RenameIsRelabelling | cli/src/cmd/rename.rs:53-75 | a rename completes with the pointer graph and bootfs relabelled in one node if and only if each of its writes succeeds and every pointer at the BE is held by another dataset on a root pool |
| PointerRuns.RenameDangles | cli/src/cmd/rename.rs:58-75 | wherever it stops, a rename leaves no dangling pointer if and only if `zfs rename` failed, nothing pointed at the BE, or every write succeeds and all holders are other datasets on root pools |
| PointerRuns.RenameKeepsBootfs | cli/src/cmd/rename.rs:62-68 | it leaves `bootfs` at a missing dataset if and only if that named the BE and its write failed |
| PointerRuns.TransferPointers | cli/src/cmd/push.rs:355-384 | a transfer adds at most its destination, and pointers only as a copy on a new dataset or, by a bootstrap, between its two sides |
| PointerRuns.DropDangles | cli/src/cmd/drop.rs:514-547 | a drop leaves no dangling pointer if and only if every other pointer at the target is on a root pool and could be cleared |
| PointerRuns.PullNewKeepsSound | cli/src/cmd/pull.rs:113-144 | an initial pull leaves every pointer at an existing dataset, whatever fails |
| PointerRuns.RunLeavesNoneDangling | DESIGN.md:239-241 | no run of pair, unpair, push, pull, fork, drop and rename leaves a pointer at a missing dataset, where pairs are on root pools, drops clear every pointer at their target, and a rename with pointers at it is not stopped between `zfs rename` and the last of them |
| CrossPools.CompletedPushCrosses | cli/src/cmd/push.rs:355-384 | a completed push keeps every pair across pools if and only if it leaves no copied pointer, as a bootstrap or a copy whose clear failed does, on a new dataset on the pool its source points at |
| CrossPools.FailedPushCrosses | cli/src/cmd/push.rs:347-384 | one that fails after delivering a new dataset does if and only if the copied pointer is at another pool |
| CrossPools.CompletedPullCrosses | cli/src/cmd/pull.rs:92-144 | a completed initial pull does if and only if, unbounded, it is from another pool, and, bounded, its clear took effect or the copied pointer is at another pool |
| CrossPools.RunKeepsCrossPool | DESIGN.md:238 | over runs without such steps every pointer is at another pool than its holder |
| Lineage.CheckOriginLineage | cli/src/cmd/fork.rs:287-329 | the walk ends on any property rows, cyclic or not, and accepts if and only if the start and everything reachable along origins is present |
| Lineage.IntactExactly | cli/src/cmd/fork.rs:287-329 | with one origin row to a dataset, a lineage is intact if and only if every chain of clones up from it ends in a dataset that is present |
| Lineage.GoesRound | cli/src/cmd/fork.rs:295-301 | once a dataset repeats, every ancestor is among those already visited |
| Forest.DescendantsOf | core/src/types.rs:355-373 | the filter with its inner loop returns, in order, the BEs the recursive definition admits |
| Forest.DescendantsAreClosure | core/src/types.rs:353-381 | descendants are exactly the transitive closure of children |
| Forest.ExactlyOneRoot | core/src/types.rs:340-373 | every BE is a root or a descendant of exactly one root |
| Trees.Render | boot/src/menu.rs:531-594 | both renderers' loops and recursion produce the specified rows |
| Trees.WalkCount | boot/src/menu.rs:564-594 | a node's rows list exactly what is nested under it, each once |
| Trees.ListedExactlyOnce | cli/src/cmd/status.rs:263-376 | menu and status each list every BE exactly once |
| Trees.SubtreesAreContiguous | cli/src/cmd/status.rs:303-376 | every subtree is one stretch of rows starting with its own node |
| Trees.SiblingsAndPrefixes | boot/src/menu.rs:564-594 | siblings come in name order; a row's prefix is the margin, for each node around it a stem exactly if that has later siblings, and the corner exactly for a last sibling |
| Trees.SortIsStable | boot/src/menu.rs:553-585 | siblings of one name keep the order of the listing |
| Trees.TopHasNoNest | boot/src/menu.rs:600-608 | the menu's local roots are exactly the BEs it nests under no other |
| Trees.NestIs | boot/src/menu.rs:577-608 | a node is nested under the BE of its origin, in the menu only within the pool |
| Trees.SectionsByPool | boot/src/menu.rs:531-562 | one header for each pool that holds a BE, in name order, and every node below the header of the pool its tree starts in |
| Calendar.CivilIsExact | cli/src/cmd/snapshot.rs:129-153 | for every u64 the date is valid, lies as many days after 1 January 1970 as counting years and months gives, and converts back to the input |
| Calendar.NothingOverflows | cli/src/cmd/snapshot.rs:129-153 | every step fits its width, no subtraction underflows and no fallback fires |
| Calendar.BeforeYear | cli/src/cmd/rollback.rs:293-312 | years counted one by one are years counted by the leap rule |
| Calendar.Era | cli/src/cmd/snapshot.rs:141-147 | the division chain finds century, leap group, year and day of every day of an era |
| Calendar.StampReads | cli/src/cmd/snapshot.rs:129-153 | up to year 9999 a stamp reads back as its date and time, with `T` and `Z` in place |
| Calendar.NamesSortUntilYear9999 | cli/src/cmd/rollback.rs:284-287 | generated names sort strictly by time up to a limit if and only if the limit's year has four digits |
| Rollback.NameTellsTheTime | cli/src/cmd/rollback.rs:284-312 | a generated name is `rollback-` and the time it was made, readable field by field; a given name is taken as it is |
| Cpio.BuildOverlay | cli/src/cmd/deploy/be.rs:313-340 | appending to one buffer builds the two records, each starting at a multiple of four |
| Cpio.Buffer.WriteNewcHeader | cli/src/cmd/deploy/be.rs:342-358 | the magic and thirteen eight-digit fields |
| Cpio.HexDigitIs | cli/src/cmd/deploy/be.rs:342-358 | the digits are those of lower-case hexadecimal |
| Cpio.Buffer.PadTo4 | cli/src/cmd/deploy/be.rs:360-365 | zeros up to a multiple of four |
| Cpio.OverlayRoundTrip | cli/src/cmd/deploy/be.rs:301-340 | read by the newc grammar the overlay is one file `etc/hostid` with its content if and only if that is shorter than 2^32 bytes |
| Cpio.OverlayLayout | cli/src/cmd/deploy/be.rs:313-358 | byte by byte: magic, the thirteen fields (mode 100644, one link, size and name length at their offsets in the newc header), `etc/hostid`, NUL, content at byte 124, and at the next multiple of four the record `TRAILER!!!` that ends the archive |
| Cpio.AppendIsAligned | cli/src/cmd/deploy/be.rs:277-289 | whatever the size, the archive starts and ends on a multiple of four, after zeros only, and the initrd itself is unchanged |
| Cpio.AppendIsNotIdempotent | cli/src/cmd/deploy/be.rs:250-252 | appending again always grows the file by the whole overlay |
| Cpio.OverlayInitrds | cli/src/cmd/deploy/be.rs:254-300 | every `initrd.img-*` file is extended and ends on a multiple of four, and every other file is unchanged |
| Witnesses.PromoteLoopRunsOut | cli/src/cmd/drop.rs:442-463 | a host and a listing for which 256 promotions leave nothing to promote and the loop reports failure |
| Witnesses.PrimaryCanBreakTheRail | cli/src/cmd/primary.rs:75-132 | a host on which a completed flip breaks the readonly rail and leaves a second pool active |
| Witnesses.OverwriteCanLeaveDivergence | cli/src/cmd/push.rs:212-228 | a host on which a completed forced push leaves a divergence |
| Witnesses.RewindCanDestroyUnlisted | cli/src/cmd/push.rs:230-259 | a host on which a forced, confirmed rewind destroys a snapshot neither prompt listed |
| Witnesses.CopyCanUnlinkAnother | cli/src/zfs_ops.rs:430-450 | a host on which a copy to a third dataset prunes the only snapshot two others shared |
| Witnesses.DropCanLeaveADanglingPointer | cli/src/cmd/drop.rs:514-547 | a host on which a drop leaves a dangling pointer |
| Witnesses.DropCanFailLate | cli/src/cmd/drop.rs:132-170 | a host on which a drop destroys its target, leaves a binding list naming it and so reports failure |
| Witnesses.RenameCanDangle | cli/src/cmd/rename.rs:58-75 | a host on which a rename cut short leaves a dangling pointer, and `bootfs` at a missing dataset |
| Witnesses.RenameCanMissAPointer | cli/src/cmd/rename.rs:83-110 | a host on which a rename reports success and leaves a pointer at the old name |
| Witnesses.BootstrapCanMispair | cli/src/cmd/push.rs:357-376 | a host on which a bootstrap to a second pool leaves the new side pointing at the old peer |
| Witnesses.PushCanPairWithinAPool | cli/src/cmd/push.rs:355-384 | a host on which a bootstrap, a copy whose clear fails, and a copy that fails once delivered leave a pointer into its holder's pool |
| Witnesses.UnpairCanDoNothing | cli/src/cmd/pair.rs:87-132 | a mutual pair that `unpair` reports cleared and leaves as it was |
| Witnesses.PullCanPairWithinAPool | cli/src/cmd/pull.rs:92-144 | a host on which a completed initial pull pairs two datasets of one pool |
| Witnesses.AttachCanMisalign | cli/src/cmd/attach.rs:117-122 | a host on which an attach cut short breaks the binding invariant |
| Witnesses.DefaultCanMisalign | cli/src/cmd/default.rs:241-276 | a host on which a default cut short breaks it |
| Witnesses.ForkCanMisalign | cli/src/cmd/fork.rs:167-231 | a host on which a completed fork breaks it |
| Witnesses.RollbackCanActivateAnother | cli/src/cmd/rollback.rs:206-246 | a host on which a rollback activates another BE than its fork |

## Left out

- Transfer.SendReceive: a full stream onto an existing dataset that shares no snapshot replaces its list; ZFS's own checks there are not modelled, and an interrupted full stream leaves nothing.
- Transfer.SendReceive: a `-R` stream of a cloned source is rejected by the receiver, so a received dataset never has an origin; that a receiver on the same pool would accept it is not modelled.
- Transfer.Seal: the three property writes of the BE contract are one step.
- Guarantees.UnforcedNeverDestroys: assumes that snapshots the two sides share come in the same order on both, which `Order.TransferKeepsDated` shows transfers keep; snapshots renamed or re-created by hand are outside.
- PairRuns.ReadonlyInvariant: that snapshots are taken on the writable side only is a condition on the run, since `snapshot` itself does not refuse on a readonly BE.
- Default.RerunConverges: says nothing of readonly on the former active BE, which a second run can no longer find.
- BindingRuns.RunKeepsAligned: `rename` and `primary` are not part of these runs; they touch neither the lists nor `canmount`. A `default` is stopped where `BindingRuns.DefaultNeverMisaligns` finds it safe, or else from at most one active pool or once the winner is set, and then under the condition of `BindingRuns.DefaultCutShort`.
- Lifecycle.RunKeepsAged: ZFS refuses to destroy a snapshot with clones; here that is the condition on a transfer that a clone's origin on the source is no anchor or is among those that cannot be destroyed, and that on the destination nothing a clone starts from is cut off or pruned.
- PointerRuns.RunLeavesNoneDangling: dataset names carry no outer white space, and a rename that dangles is kept out of the runs by its exact condition.
- Mirror.ListOutgoingTargets: the order of the targets is left open.
- Trees.Render: `status`'s detail lines under each node, and labels and markers, are not modelled.
- Pool import and export, role tagging and the ROOT container: all pools are taken as imported and writable.
- Inherited property values, child datasets of a boot environment, and snapshots held or cloned against destruction beyond the failure they cause.
- Messages, previews, byte sizes, dirty-byte reporting and the order of log lines.
- Deploy, ESP, kexec, preinit, the boot menu's input loop and the shell: linear plumbing or user interface.
- Atomic snapshot sets over several datasets, and resolving a bare name against the booted pool.
