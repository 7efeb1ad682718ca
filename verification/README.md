# A verified model of the Aleph consensus node

The repository is an implementation of the Aleph protocol for Byzantine fault tolerant ordering. Processes
create *units*; a unit names one parent per process, so the units form a dag. Every node sees a growing,
parent-closed part of that dag and turns it, without further communication, into a linear order. All nodes
must produce the same order although they see different parts, although some creators fork, and although
units arrive in any order.

This project models that pipeline in Dafny and proves it correct for every committee, every dag, every run
and every interleaving:

- **Order of the dag** (`Units`, `DagOrder`, `Checks`, `PrimeAncestors`). Units carry the units below them;
  reachability through parents is the reference. Floors, the chain walk, `Above` and the compliance checks are
  loops proved equal to it, forks included.
- **Virtual voting** (`Voting`, `Tallies`, `Deciding`). The plain definition of votes and decisions, agreement on
  decisions with fewer than `2q - n` forking creators, and the memoised, short-circuited code proved against it.
  `ForkedTally` holds the one way in which the short cut can miss a decision.
- **Choosing timing units** (`Permutation`, `Runs`, `Extending`). The common permutation, the extender as a
  class with its memory, reading a dag that grows while it reads, and agreement of any two runs.
- **Emitting rounds** (`TimingRounds`, `RoundOrder`, `Outputs`). The layered depth-first search, the tie-break
  by masked hashes, the exactness of the "last k timing units" window, and total-order agreement.
- **The node's dag** (`FiberMaps`, `DagStore`). The indices and forking heights kept by every insertion.
- **The coin** (`Coining`) and **a whole node** (`Nodes`), in which units are checked and inserted while the
  ordering, at its own pace, reads any earlier or present state of the dag; every assumption of the ordering is
  discharged there.
- **The creator** (`Creating`), **the adder** (`Adding`), **the wire format** (`Encoding`, `Chunks`,
  `WireData`) and **fork commitments** (`Commitments`).

The main results are `Nodes.NodesAgree`, `Nodes.OutputIsLinear`, `Outputs.TotalOrderAgreement`,
`Voting.DecisionAgreement`, `Voting.SettlesOnSchedule`, `Deciding.SeenByAllSettles`, `Deciding.UnseenSettles`,
`Tallies.TallyIsExact`, `Outputs.WindowIsExact`, `RoundOrder.TieBreak`, `DagOrder.Above`,
`DagStore.Dag.AboveWithinProc`, `Adding.NeverUnknownParents`, `Adding.DispatchedPromptly`,
`Adding.NeverDispatched`, `Adding.PurgeReturns`, `Creating.MakeConsistent`, `Creating.Creator.CreateReady`,
`Encoding.WireRoundTrip`, `Encoding.DecodePanics`, `WireData.AcceptedAfterWire`,
`Commitments.CommitDownRoundTrip` and `Commitments.CommitBase.Receive`.

Conventions. Quorums are a parameter `q` with `0 < q <= n < 2q`; `Voting.World` adds the bound on forking
creators where forks matter. Unit identity is equality of values; the hash is a field used where the program
compares hashes, and distinct hashes and priorities are assumed (`Runs.NoTies`) exactly where ties would break
the order. `cfg.rand(l)` is the one value of the random source on level `l`, and `cfg.shake` the hash behind
priorities. The voting constants are variables constrained only by `2 <= zeroRound <= deterministicPrefix` and
`zeroRound <= firstDecidingRound`, which the values in `pkg/config/config.go:156-162` satisfy.

Where the code does not do something for all inputs, the exact condition is proved:

- The tally of a deciding unit counts every branch of a fork, so it can end without the decision of the full
  tally. It does so exactly if two of the first quorum of equal ballots are of one process
  (`Tallies.TallyIsExact`); `ForkedTally.MissedDecision` is a dag with one tolerated forker, every unit of which
  passes all checks, where it happens.
- Removing a failed preunit with its descendants returns exactly if no path through children repeats
  (`Adding.PurgeReturns`); claims are free, and `Adding.CyclicClaimsHang` is a sequence of submissions after which
  it does not.
- A preunit with more claims than processes brings the node down when it is submitted, one with fewer when a
  worker takes it (`Adding.Adder.AddToWaiting`, `Adding.Adder.Work`).
- A preunit survives the wire exactly when its height fits in 16 bits, its id is not all ones, its random data
  is not nil, and the other bounds hold, among them at most 16375 processes because the crown size is computed in
  16 bits (`Encoding.WireRoundTrip`, `Encoding.CrownFits`). Bytes bring the decoder down exactly if they encode fields
  whose height does not match the crown (`Encoding.DecodePanics`).
- Sorting a chunk ends exactly when no unit is of epoch 2^32 - 1, because the epoch counter wraps
  (`Chunks.EpochLoopEnds`, `Chunks.SortChunk`).
- The rotation of processes adds 16-bit creator numbers, so it is a permutation exactly while
  `creator + n <= 65536` (`Permutation.SplitIsPermutation`). Agreement does not depend on it, but sorting by
  priority panics if a process is listed twice (`Permutation.RandomPermutation`, `Extending.NoPanic`).
- The create loop ends by itself exactly when a quorum needs more than one process
  (`Creating.Creator.CreateReady`, `Creating.LoneCreatorIsReady`).
- A unit whose random data is accepted stays accepted across the wire exactly if it is not a dealing unit or its
  creator provides coin shares; the others are made with nil and arrive with empty data, which is rejected
  (`WireData.AcceptedAfterWire`, `WireData.DealingRejectedElsewhere`).

`dafny verify dfyconfig.toml` checks everything.

## Model

| member | source | states |
|---|---|---|
| `Units.ReachTransitive` | pkg/gomel/unit.go:17-30 | being above is transitive |
| `Units.ReachAntisymmetric` | pkg/gomel/unit.go:17-30 | two units above each other are the same unit |
| `Units.ChainIsTotal` | pkg/unit/free_unit.go:60-71 | any two units on one predecessor chain are comparable |
| `Units.TopLevelIsHighest` | pkg/gomel/unit.go:33-52 | no parent is above the level the loop settles on, and unless it is 0 some parent is on it |
| `Units.LevelFromParents` | pkg/gomel/unit.go:33-52 | the one-pass loop gives the highest parent level, plus one exactly when a quorum of slots is on it |
| `Units.LevelOverIs` | pkg/gomel/unit.go:33-52 | the level is the one number that no parent exceeds and fewer than a quorum of slots are on, and that is 0, the level of some parent, or one above a quorum of slots |
| `Units.CompliantIsWellBuilt` | pkg/dag/check/parental_compliance.go:28-34 | compliance is the other checks plus: all own units below are on the own chain |
| `Units.CompliantBelow` | pkg/dag/adding.go:34-41 | everything below a checked unit is checked |
| `Units.LevelsGrow` | pkg/gomel/unit.go:33-52 | levels never decrease along the order |
| `Units.ChainFacts` | pkg/dag/check/basic_compliance.go:27-32 | along a chain levels and heights strictly increase and the creator is the same |
| `DagOrder.AboveWithinProc` | pkg/unit/free_unit.go:60-71 | the walk answers exactly whether the unit is on the predecessor chain |
| `DagOrder.EmptySlot` | pkg/dag/check/parental_compliance.go:11-26 | consistent parents: a process with an empty slot has no unit anywhere below |
| `DagOrder.AboveThroughFloor` | pkg/gomel/unit.go:17-30 | reachability splits at the floor of the lower unit's creator |
| `DagOrder.Above` | pkg/gomel/unit.go:17-30 | the floor-based test holds exactly when the unit is reachable through parents |
| `DagOrder.ComputeFloor` | pkg/unit/free_unit.go:73-84 | cached slots hold the exact floor; for the others it is the parent alone, or nothing |
| `DagOrder.Floor` | pkg/unit/free_unit.go:50-58 | exactly the antichain of maximal units of a process strictly below |
| `DagOrder.MergeMaximal` | pkg/gomel/unit.go:55-92 | merging one unit keeps an antichain covering all that was covered and the unit |
| `DagOrder.MergeFloor` | pkg/gomel/unit.go:55-92 | merging a parent's floor covers everything of that process below the parent |
| `DagOrder.MaximalByPid` | pkg/gomel/unit.go:55-92 | the merge over all parents is the floor |
| `DagOrder.HasForkingEvidence` | pkg/dag/check/parental_compliance.go:61-69 | true exactly when some unit of the creator below is off the chain of the parent in its slot |
| `DagOrder.NoSelfForkingEvidence` | pkg/dag/check/parental_compliance.go:28-34 | on units past the other checks it accepts exactly the compliant ones |
| `Checks.BasicCorrectness` | pkg/dag/check/basic_compliance.go:11-34 | accepts exactly: parents in their slots, a predecessor unless there are no parents, a level above it |
| `Checks.ParentConsistency` | pkg/dag/check/parental_compliance.go:11-26 | accepts exactly the parent sets in which no slot is topped by what another parent shows in it |
| `Checks.ForkerMuting` | pkg/dag/check/parental_compliance.go:36-59 | accepts exactly the units no parent of which proves that the creator of another parent forked |
| `Checks.Check` | pkg/dag/adding.go:34-41 | the four checks together accept exactly the compliant units that mute forkers |
| `Quorums.Intersect` | pkg/linear/unanimous_voting.go:140-150 | two quorums share a process outside any faulty set smaller than 2q - n |
| `PrimeAncestors.QuorumBelow` | pkg/linear/unanimous_voting.go:152-200 | a unit above level 0 has ancestors one level down from a quorum of creators, even if its level comes from one parent |
| `PrimeAncestors.LevelsPopulated` | pkg/gomel/unit.go:33-52 | below a unit every lower level is populated |
| `PrimeAncestors.Descend` | pkg/linear/unanimous_voting.go:161-172 | the walk from a floor unit ends on the unit of the wanted level exactly if its chain has one |
| `PrimeAncestors.Find` | pkg/linear/unanimous_voting.go:159-175 | exactly the prime ancestors of that creator, in the order of the floor, one entry per branch |
| `PrimeAncestors.LandingsInOrder` | pkg/linear/unanimous_voting.go:159-175 | the branches of a process are taken in the order of its floor |
| `PrimeAncestors.ListedPerBranch` | pkg/linear/unanimous_voting.go:159-175 | an ancestor is listed once for every unit of the floor that has it on its chain |
| `PrimeAncestors.LoneLanding` | pkg/linear/unanimous_voting.go:159-175 | without forks in view a process has at most one entry |
| `Voting.HonestUnique` | pkg/dag/check/basic_compliance.go:27-32 | a creator that does not fork has one unit per level |
| `Voting.SharedVoter` | pkg/linear/super_majority_deciding.go:59-94 | a quorum of votes behind one unit meets any quorum seen by another unit of the level in an honest vote |
| `Voting.SettledLevel` | pkg/linear/super_majority_deciding.go:27-57 | once v is decided on a level with common vote v, all units of the level vote v or are undecided |
| `Voting.SettledAbove` | pkg/linear/unanimous_voting.go:49-88 | and every unit on a higher level votes v |
| `Voting.DecisionAgreement` | pkg/linear/super_majority_deciding.go:27-94 | no two units of the whole dag, at any levels, decide a candidate differently |
| `Voting.BlindVote` | pkg/linear/unanimous_voting.go:106-111 | a unit that does not see the candidate votes unpopular in every round |
| `Voting.BlindSettles` | pkg/linear/unanimous_voting.go:121-138 | in the round of the zero common vote such a unit decides unpopular and settles it, and does not decide popular |
| `Voting.MixedPassesOn` | pkg/linear/unanimous_voting.go:121-138 | a unit that sees both votes passes on popular in the deterministic rounds except the zero round, and afterwards popular exactly if the low bit of the random bytes of the next level is 0 |
| `Voting.SettlesOnSchedule` | pkg/linear/super_majority_deciding.go:35-52 | a unit that decides a value settles it exactly if, in the deterministic rounds, the value is unpopular in the zero round and popular in the others, and afterwards the low bit of the random bytes of the next level is 0 for popular and 1 for unpopular |
| `Voting.SeenByAllDecides` | pkg/linear/unanimous_voting.go:105-138 | two levels above a candidate that all its prime ancestors see, a unit decides popular and not unpopular |
| `Voting.PopularIsSeen` | pkg/linear/timing_round.go:26-28 | every unit at least zeroRound levels up is above a popular unit |
| `Voting.EffIsDecided` | pkg/linear/super_majority_deciding.go:75-86 | from the first voting round on a passed vote is never undecided, so the fast-fail branch is never taken |
| `Tallies.CountVoters` | pkg/linear/unanimous_voting.go:159-198 | there are as many voting processes as ballots exactly if no process has two |
| `Tallies.AnnouncedAt` | pkg/linear/super_majority_deciding.go:59-94 | what is announced is the value that first has a quorum of ballots, unless two of them are of one process |
| `Tallies.BallotVoters` | pkg/linear/unanimous_voting.go:159-198 | the ballots for a value come exactly from the processes seen to vote it, although mixed processes are not looked at to the end |
| `Tallies.BallotsInOrder` | pkg/linear/unanimous_voting.go:152-200 | ballots are counted process by process in their order |
| `Tallies.TallyIsExact` | pkg/linear/super_majority_deciding.go:59-94 | an announced decision is one of the full tally; the full tally's decision is missed exactly if two of the first quorum of equal ballots are of one process |
| `Tallies.NoRepeatsNotCrowded` | pkg/linear/super_majority_deciding.go:59-94 | nothing is missed if no process has two branches that vote the same |
| `Tallies.NoForkNotCrowded` | pkg/linear/super_majority_deciding.go:59-94 | in particular by a unit that sees no fork |
| `ForkedTally.MissedDecision` | pkg/linear/super_majority_deciding.go:59-94 | four processes, one forker, every unit passes all checks: every process votes popular and the count ends undecided |
| `Deciding.Decider.CommonVoteAt` | pkg/linear/unanimous_voting.go:113-138 | undecided up to round 1, then popular except in the zero round, and past the deterministic prefix the low bit of the stored bytes of the next level; the bytes it indexes are there |
| `Deciding.Decider.VoteUsing` | pkg/linear/unanimous_voting.go:49-88 | the memoised vote equals memo-free exhaustive unanimity, and the memo stays right |
| `Deciding.Decider.PassedOn` | pkg/linear/unanimous_voting.go:67-73 | the vote, or the common vote in place of an undecided one |
| `Deciding.Decider.VoteByUnanimity` | pkg/linear/unanimous_voting.go:59-86 | stopping at the first disagreement gives the exhaustive vote |
| `Deciding.Decider.CountProcess` | pkg/linear/unanimous_voting.go:159-194 | the votes of one process are taken branch by branch, exactly up to the quorum or to the vote that makes them mixed |
| `Deciding.Decider.Decide` | pkg/linear/super_majority_deciding.go:59-94 | the announcement of the unit's ballots: a quorum of processes is behind it, and undecided means no decision in the full tally or two ballots of one process in the first quorum |
| `Deciding.Decider.DecideInSlot` | pkg/linear/super_majority_deciding.go:36-52 | a decision matching the common vote is found in a slot, or none of its units gives one, except overcounted ones |
| `Deciding.Decider.DecideOnLevel` | pkg/linear/super_majority_deciding.go:34-53 | the same for a whole level, each slot read at its own time |
| `Deciding.Decider.DecideUnitIsPopular` | pkg/linear/super_majority_deciding.go:25-57 | decides on the lowest level that allows it; every decision is backed by a unit of the dag and kept; undecided means that no unit there at the start gives one, except overcounted ones, among those at least two levels under the top of the dag and those in a deterministic round |
| `Deciding.DecisionStays` | pkg/linear/super_majority_deciding.go:96-107 | a decision of a unit two levels under the top of the dag, or in a deterministic round, stays within reach with the same value as the dag grows |
| `Deciding.MaxDecideLevelIs` | pkg/linear/super_majority_deciding.go:96-107 | levels up to the maximal deciding level are exactly those at least two under the top of the dag, and those of the dag in a deterministic round |
| `Deciding.SeenByAllSettles` | pkg/linear/super_majority_deciding.go:25-57 | a candidate seen by a whole level is settled as popular one level later exactly if that is not the zero round, and is then not left open by a dag that reaches that level, if no fork is seen |
| `Deciding.UnseenSettles` | pkg/linear/super_majority_deciding.go:25-57 | a candidate that a unit of the zero round does not see is settled as unpopular, and is not left open by a dag that reaches that round, if no fork is seen |
| `Deciding.NeverBothWays` | pkg/linear/super_majority_deciding.go:59-94 | with a tolerated number of forkers no unit decides both ways |
| `Deciding.OpenIsUnsettled` | pkg/linear/super_majority_deciding.go:27-57 | a unit left open by the code settles nothing unless it is overcounted |
| `Deciding.NoForkNotOvercounted` | pkg/linear/super_majority_deciding.go:59-94 | a unit that sees no fork is never overcounted |
| `HashOrder.LessThan` | pkg/gomel/hash.go:15-26 | smaller at the first differing byte |
| `HashOrder.LessIsNumeric` | pkg/gomel/hash.go:15-26 | hashes are ordered as the numbers they are in base 256, most significant byte first |
| `HashOrder.LessIsTotal` | pkg/gomel/hash.go:15-26 | exactly equal hashes are unordered |
| `HashOrder.LessIsTransitive` | pkg/gomel/hash.go:15-26 | the order is transitive |
| `HashOrder.Sort` | pkg/linear/crp.go:81-83 | a sorted permutation of the input |
| `HashOrder.SortDistinct` | pkg/linear/crp.go:112-128 | a permutation with strictly rising keys, or a panic exactly if two entries have equal keys |
| `HashOrder.SortIsUnique` | pkg/linear/crp.go:81-83 | with distinct keys there is one sorted arrangement, so the sorting algorithm does not matter |
| `Permutation.SplitProcesses` | pkg/linear/crp.go:57-72 | position i holds (i + level) mod n, moved on by the creator of the last timing unit in 16-bit arithmetic mod n; the first min(prefix, n) positions are the prefix |
| `Permutation.SplitIsPermutation` | pkg/linear/crp.go:57-72 | every process has exactly one position if and only if the 16-bit sum cannot overflow |
| `Permutation.EveryoneTried` | pkg/linear/crp.go:57-72 | without overflow the units of every process are tried |
| `Permutation.PrefixPosition` | pkg/linear/crp.go:57-72 | a process of the prefix has one of the first positions, in numbers |
| `Permutation.PositionInPrefix` | pkg/linear/crp.go:57-72 | whoever has such a position is in the prefix |
| `Permutation.PrecedesMeans` | pkg/linear/crp.go:22-55 | prefix units are tried by hash and before the others; the others by the hash of the random bytes of level + 5 followed by the unit hash |
| `Permutation.PrecedesIsTotal` | pkg/linear/crp.go:22-55 | units with distinct hashes and priorities are ordered one way |
| `Permutation.DefaultPermutation` | pkg/linear/crp.go:74-85 | all units of the level that were there at the start, made by the given processes, and only such units; no later one has a smaller hash |
| `Permutation.RandomPermutation` | pkg/linear/crp.go:87-130 | the same, strictly by the hash of the stored bytes of level + 5 followed by the unit hash; it fails exactly when it meets a unit whose random bytes are not known and panics exactly when two entries tie, which takes a process listed twice or two units of one priority |
| `Permutation.NotePriorities` | pkg/linear/crp.go:105-109 | the units of one slot get the priority given by the bytes read for it, the others keep theirs |
| `Runs.PopularNotMissing` | pkg/linear/extender.go:57-60 | a popular unit is present in every view that has reached the first deciding round above it |
| `Runs.NotOverlooked` | pkg/linear/extender.go:62-83 | a valid choice is never passed over by another node, even if it reached that node after the candidates were listed |
| `Runs.SameChoice` | pkg/linear/extender.go:62-83 | after the same timing unit two nodes choose the same next one |
| `Runs.RunsAgree` | pkg/linear/extender.go:44-90 | of any two runs' timing units one list is a prefix of the other |
| `Extending.DagMaxLevel` | pkg/linear/extender.go:108-120 | bounds every level there at the start and is attained at the end, -1 for an empty dag |
| `Extending.Extender.constructor` | pkg/linear/extender.go:27-41 | starts with an empty run and a valid memory |
| `Extending.Extender.StaysValid` | pkg/linear/extender.go:92-106 | votes and decisions remembered between calls stay right while the dag grows |
| `Extending.Extender.GetDecider` | pkg/linear/extender.go:92-106 | one decider per candidate, kept between calls |
| `Extending.Extender.TryCandidates` | pkg/linear/crp.go:35-55 | all before the stop are unpopular; it stops at the first popular or undecided one |
| `Extending.Extender.Choose` | pkg/linear/crp.go:22-55 | a choice is valid for what the node held meanwhile, or the reason for not choosing is given, or sorting panics |
| `Extending.Extender.NextRound` | pkg/linear/extender.go:43-90 | while the dag grows, extends the run by a valid choice with exactly the last zeroRound timing units, oldest first, or changes nothing and is blocked, or panics on a tie |
| `Extending.NoPanic` | pkg/linear/crp.go:112-128 | without ties and with at most 32768 processes nothing panics |
| `Extending.Extender.Record` | pkg/linear/extender.go:69-77 | the window slides and the deciders are dropped |
| `TimingRounds.CheckIfAlreadyOrdered` | pkg/linear/timing_round.go:26-39 | with its level shortcut, exactly being below one of the given timing units |
| `TimingRounds.LayersGrow` | pkg/linear/timing_round.go:41-79 | a new unit strictly below another is on a lower layer |
| `TimingRounds.LayerOfIs` | pkg/linear/timing_round.go:41-79 | the layer of a unit is above those of its new parents, and 0 or directly above one of them |
| `TimingRounds.LayerSearch.Dfs` | pkg/linear/timing_round.go:46-79 | finishes the unit and everything new below it, each on its layer once, and nothing else |
| `TimingRounds.LayerSearch.VisitSlot` | pkg/linear/timing_round.go:55-68 | visits one parent unless ordered or seen, and raises the layer bound by it |
| `TimingRounds.GetAntichainLayers` | pkg/linear/timing_round.go:41-79 | each layer lists once exactly the round's units of that layer |
| `RoundOrder.XorPermuted` | pkg/linear/timing_round.go:81-91 | the mask does not depend on the order of the units |
| `RoundOrder.XorIsParity` | pkg/linear/timing_round.go:82-87 | a bit of the mask is set exactly if it is set in an odd number of the hashes |
| `RoundOrder.ParityMaskUnique` | pkg/linear/timing_round.go:82-87 | there is one such mask |
| `RoundOrder.TotalXor` | pkg/linear/timing_round.go:81-91 | the exclusive or of all hashes of the round: each bit is the parity of the hashes that have it |
| `RoundOrder.XorInjective` | pkg/linear/timing_round.go:92-103 | masking keeps hashes distinct, so it creates no ties |
| `RoundOrder.MergeLayers` | pkg/linear/timing_round.go:81-107 | the layers one after another, each a permutation of its units sorted by masked hash |
| `RoundOrder.OrderedUnits` | pkg/linear/timing_round.go:19-24 | exactly the units below the timing unit and no earlier one, each once, by layer; units of one layer by the first byte in which their hashes differ, under the mask of the parities of the round |
| `RoundOrder.TieBreak` | pkg/linear/timing_round.go:88-105 | of two units of one layer with different hashes, the one whose first differing byte is smaller under the mask of parities comes first |
| `RoundOrder.ParentsFirst` | pkg/linear/timing_round.go:41-107 | everything below a unit of the round comes before it |
| `RoundOrder.TimingUnitLast` | pkg/linear/timing_round.go:19-24 | the round ends with its timing unit |
| `RoundOrder.RoundOrderUnique` | pkg/linear/timing_round.go:81-107 | with distinct hashes a round has one order |
| `Outputs.LaterSeesEarlier` | pkg/linear/timing_round.go:26-28 | a timing unit is above every one at least zeroRound positions earlier |
| `Outputs.WindowIsExact` | pkg/linear/timing_round.go:26-39 | below the new timing unit, "below one of the last k" is the same as "below any earlier timing unit of the run" |
| `Outputs.WindowIsUsable` | pkg/linear/extender.go:69-73 | the window of any run meets what the ordered check needs |
| `Outputs.RoundIsNew` | pkg/linear/timing_round.go:46-79 | a round has exactly the units below its timing unit and below no earlier one |
| `Outputs.RoundsPartition` | pkg/linear/timing_round.go:46-107 | over a run the rounds are disjoint and their concatenation is a linear extension of the dag order |
| `Outputs.TotalOrderAgreement` | pkg/linear/extender_service.go:63-98 | of what any two runs over one dag emit, round by round and concatenated, one is a prefix of the other |
| `FiberMaps.FiberMap.ExtendBy` | pkg/dag/fiber_map.go:57-64 | adds empty fibers and changes no entry |
| `FiberMaps.FiberMap.Get` | pkg/dag/fiber_map.go:66-89 | the units at the heights asked for, and the number of slots that ask for one and find none |
| `FiberMaps.FiberMap.Above` | pkg/dag/fiber_map.go:91-114 | exactly the units filed above the heights, none twice |
| `DagStore.NewHeightDecides` | pkg/unit/unit_in_dag.go:35-66 | for the new unit, heights under both forking heights decide the chain, both ways round |
| `DagStore.InsertKeepsHeights` | pkg/unit/unit_in_dag.go:35-66 | the new forking height keeps all pairs of the dag decidable by heights, forked dealing units and forks of forks included, and stays unbounded for processes that have not forked |
| `DagStore.OnlyBranch` | pkg/unit/unit_in_dag.go:38-63 | a unit that does not fork its creator is its only dealing unit, or its predecessor is maximal |
| `DagStore.InsertKeepsUnbounded` | pkg/unit/unit_in_dag.go:38-63 | the units of a process that has not forked have the greatest forking height |
| `DagStore.InsertMaximal` | pkg/dag/adding.go:70-82 | after an insertion exactly the new unit and the maximal ones not below it are maximal |
| `DagStore.UnderMaximal` | pkg/dag/adding.go:70-82 | every unit is on the chain of a maximal one of its creator |
| `DagStore.OneExtensionSuffices` | pkg/dag/adding.go:57-97 | a new unit is at most one past the end of either index |
| `DagStore.FileUnit` | pkg/dag/adding.go:57-97 | after at most one extension, by ten and only if the key is beyond the end, the index lists the larger set |
| `DagStore.Dag.Insert` | pkg/dag/adding.go:43-55 | every index again agrees with the set of units, now with the new one; its forking height is that of the case it is in |
| `DagStore.Dag.ComputeForkingHeight` | pkg/unit/unit_in_dag.go:35-66 | its result is that of the case the unit is in and keeps the forking heights right |
| `DagStore.Dag.MaximalWith` | pkg/dag/adding.go:70-82 | lists exactly the maximal units of the larger dag, each once |
| `DagStore.Dag.AboveWithinProc` | pkg/unit/unit_in_dag.go:24-33 | the height shortcut answers exactly what the predecessor walk does |
| `DagStore.Dag.GetById` | pkg/dag/dag.go:94-106 | exactly the units of that height, creator and epoch, each once |
| `DagStore.Dag.UnitsAbove` | pkg/dag/dag.go:69-77 | exactly the units above the given heights, or all of them, each once |
| `DagStore.Dag.DecodeParents` | pkg/dag/adding.go:8-28 | duplicate exactly for a known hash, a panic exactly for the wrong number of claims, unknown with the number of claims not there, ambiguous only under a fork, otherwise the one unit at each height |
| `DagStore.Dag.MaxView` | pkg/gomel/daginfo.go:9-27 | the greatest height per process, all heights below it taken |
| `DagStore.NoGaps` | pkg/gomel/daginfo.go:9-27 | below a unit its creator has a unit at every height |
| `DagStore.MaxViewTest` | pkg/adder/waiting_preunit.go:35-51 | "higher than the greatest height" is the same as "not in the dag" |
| `DagStore.Dag.ViewIsConsistent` | pkg/dag/dag.go:60-82 | what the ordering reads is consistent with the set of units |
| `Coining.SyncBytesSlice.AppendOrIgnore` | pkg/random/sync.go:78-88 | appends exactly when the length is the expected one |
| `Coining.Coin.CheckCompliance` | pkg/random/coin/coin.go:101-146 | accepts exactly: the bytes of the level under the unit, a share from a provider, nil from a dealing unit of anybody else |
| `Coining.Coin.Update` | pkg/random/coin/coin.go:85-99 | the store stays right, gets exactly the bytes of the level under the unit if those are next, and covers every level below the dag's highest; the shares of providers are kept |
| `Coining.Coin.DataToInclude` | pkg/random/coin/coin.go:148-174 | the right bytes and our share, always if the level is stored; fails only if shares collected from it, enough or all there are, do not combine to them |
| `Coining.Coin.CollectShares` | pkg/random/coin/coin.go:176-200 | shares of different providers on the level, of all of them unless the threshold is reached |
| `Coining.Coin.IncludedIsValid` | pkg/random/coin/coin.go:148-174 | a unit carrying the included data passes the check |
| `Coining.LevelUnderAvailable` | pkg/random/coin/coin.go:96-98 | an insertable unit is at most one level past what the store covers |
| `Coining.StoresAgree` | pkg/random/coin/coin.go:78-83 | two nodes never hold different bytes for a level |
| `Coining.CommonVotesHaveBytes` | pkg/linear/unanimous_voting.go:113-138 | every coin read at or under the deciding level finds bytes |
| `Nodes.Node.constructor` | pkg/linear/extender_service.go:27-46 | an empty node is valid |
| `Nodes.Node.Receive` | pkg/dag/adding.go:34-55 | a unit is inserted exactly if it passes all checks; the whole node stays valid and the ordering is not disturbed |
| `Nodes.Node.Insert` | pkg/dag/adding.go:43-55 | the hook of the coin and then the insertion keep the whole node valid |
| `Nodes.Node.OrderRounds` | pkg/linear/extender_service.go:63-80 | picking rounds terminates with the next one blocked for what was read last, reading the dag at any admissible moments, only appends, and does not panic without ties and with at most 32768 processes |
| `Nodes.Node.PickRound` | pkg/linear/extender_service.go:65-80 | what is handed over is fit for ordering; nothing is handed over only while the choice is blocked or panics |
| `Nodes.Node.OrderRound` | pkg/linear/extender_service.go:82-98 | one more round is emitted in its order, or the choice is blocked |
| `Nodes.NodesAgree` | pkg/linear/extender_service.go:63-98 | of the outputs of two nodes in any reachable states, whatever their ordering has read so far, one is a prefix of the other |
| `Nodes.OutputIsLinear` | pkg/linear/extender_service.go:82-98 | a node's output lists everything below its timing units once, each after all below it |
| `Creating.MakeConsistent` | pkg/creator/creator.go:287-303 | one in-place pass yields consistent parents, lowers no slot, only takes units from below, and leaves a consistent set alone |
| `Creating.CandidatesConsistent` | pkg/creator/creator.go:246-252 | with parents delivered first the candidates are consistent as they are |
| `Creating.LevelsUpdate` | pkg/creator/creator.go:200-221 | the incremental counters equal recomputing the level from the candidates |
| `Creating.QuorumReached` | pkg/creator/creator.go:200-221 | if the candidates allow a level, a quorum of them has reached the one under it |
| `Creating.WalkUnder` | pkg/creator/creator.go:257-262 | the highest unit of the chain under the level |
| `Creating.ParentsGiveLevel` | pkg/creator/creator.go:254-265 | without level skipping the walked and repaired parents give exactly the wanted level |
| `Creating.NewUnitCompliant` | pkg/creator/creator.go:267-275 | a unit on top of our latest one from consistent parents is basically correct, consistent and no evidence against us |
| `Creating.Creator.constructor` | pkg/creator/creator.go:277-285 | an epoch starts with our dealing unit as the only candidate |
| `Creating.Creator.UpdateCandidates` | pkg/creator/creator.go:200-221 | keeps the highest candidate per process, and the level equal to the one their parents would give |
| `Creating.Creator.Update` | pkg/creator/creator.go:166-198 | a delivered unit never displaces our own latest one |
| `Creating.Creator.BuildParents` | pkg/creator/creator.go:114-123 | whenever the candidates give a level above our latest unit: in both modes consistent parents on top of it, and the level they give |
| `Creating.Creator.GetParentsForLevel` | pkg/creator/creator.go:254-265 | consistent parents that give exactly the wanted level, in no slot lower than the highest unit of the chain under it |
| `Creating.Creator.CreateUnit` | pkg/creator/creator.go:267-275 | the new unit is compliant and becomes our candidate |
| `Creating.Creator.CreateReady` | pkg/creator/creator.go:104-112 | creates units, each on top of the one before, exactly if the candidates give a level above our latest unit, until they no longer do; own levels strictly increase, each equals the level of its parents |
| `Creating.ReadyMeansBehind` | pkg/creator/creator.go:125-130 | a creator that may create is not above all other candidates |
| `Creating.LoneCreatorIsReady` | pkg/creator/creator.go:125-130 | with a quorum of one the creator is always ready, so the loop would not end by itself |
| `Adding.CheckParents` | pkg/adder/waiting_preunit.go:32-51 | each parent above the greatest heights read, possibly stale, is counted once, waiting or missing, and linked back |
| `Adding.CheckIfMissing` | pkg/adder/waiting_preunit.go:18-30 | exactly those that missed the preunit now wait for it |
| `Adding.SubmitKeepsInv` | pkg/adder/adder.go:123-149 | the counters count exactly the unresolved parents after a submission, and nobody is left waiting for what has already been inserted and removed |
| `Adding.RemoveKeepsInv` | pkg/adder/waiting_preunit.go:53-67 | and after a removal, which dispatches exactly the children left with nothing unresolved |
| `Adding.PurgeKeepsInv` | pkg/adder/waiting_preunit.go:69-76 | and after a purge |
| `Adding.RemoveFailed` | pkg/adder/waiting_preunit.go:69-76 | where it returns, takes out the failed preunit and whatever waits on it, and nothing else |
| `Adding.DescendantsPurged` | pkg/adder/waiting_preunit.go:69-76 | every waiting transitive child of a failed preunit has left the buffer |
| `Adding.PurgeReturns` | pkg/adder/waiting_preunit.go:69-76 | the removal returns exactly if no path through children repeats an id |
| `Adding.AcyclicReturns` | pkg/adder/waiting_preunit.go:69-76 | in particular it returns whenever the claimed-parent relation is acyclic |
| `Adding.CyclicClaimsHang` | pkg/adder/waiting_preunit.go:69-76 | three submissions, two claiming each other, after which it does not return |
| `Adding.StepKeepsInv` | pkg/adder/adder.go:123-214 | every atomic step keeps the invariant |
| `Adding.RunIsSafe` | pkg/adder/adder.go:79-214 | the invariant holds in every state of every interleaving |
| `Adding.DispatchedHasParents` | pkg/adder/adder.go:163-170 | a dispatched preunit has all parents in the dag |
| `Adding.NeverUnknownParents` | pkg/adder/adder.go:163-189 | in every interleaving a worker never meets unknown parents, and each preunit is handed out at most once |
| `Adding.PromptlyDispatched` | pkg/adder/waiting_preunit.go:53-67 | under the invariant a live preunit whose parents all came through the buffer, are inserted and removed has been dispatched |
| `Adding.DispatchedPromptly` | pkg/adder/adder.go:151-161 | the same in every state of every interleaving, although heights may be read before other insertions |
| `Adding.PurgedStays` | pkg/adder/waiting_preunit.go:18-76 | what was purged is not brought back by any step |
| `Adding.NeverDispatched` | pkg/adder/adder.go:151-161 | in every interleaving a purged preunit is never dispatched |
| `Adding.Adder.AddToWaiting` | pkg/adder/adder.go:123-149 | a duplicate changes nothing, too many claims are a panic; otherwise the state is the registered one, the error counts the missing parents, and the request is the one due and noted as made |
| `Adding.Adder.FetchMissing` | pkg/adder/missing_preunit.go:35-66 | notes exactly what lies between the heights in view and the claims and is not waiting, and asks exactly for what is due, or for gossip once that is too much |
| `Adding.DueMembers` | pkg/adder/missing_preunit.go:42-56 | asked for is exactly what is claimed above the heights in view, does not wait, and was not asked for within the interval |
| `Adding.DueInOrder` | pkg/adder/missing_preunit.go:42-56 | slot by slot, from the highest down |
| `Adding.Adder.Work` | pkg/adder/adder.go:163-214 | the wrong number of claims is a panic; otherwise fails exactly when the unit is unacceptable, never for unknown parents |
| `Adding.Adder.CountUnknown` | pkg/dag/adding.go:8-14 | the number of claimed parents outside the dag |
| `Adding.Adder.Remove` | pkg/adder/waiting_preunit.go:53-67 | a failed preunit is purged with its descendants, another one notifies its children |
| `Adding.Adder.NotifyChildren` | pkg/adder/waiting_preunit.go:62-65 | each child's counter drops by one and those that become ready are sent, in order |
| `Encoding.IdRoundTrip` | pkg/gomel/preunit.go:31-45 | an id gives back its parts if and only if the height is below 2^16 |
| `Encoding.IdInverse` | pkg/gomel/preunit.go:31-45 | every 64-bit number is the id of its parts |
| `Encoding.IdsCollide` | pkg/gomel/preunit.go:31-45 | a height over 16 bits gives the id of a lower height of the next creator |
| `Encoding.HeightRoundTrip` | pkg/encoding/encoder.go:37-46 | heights survive if and only if they are at least -1 and below 2^32 - 1 |
| `Encoding.HeightsWrap` | pkg/encoding/encoder.go:37-46 | larger heights wrap at 32 bits, and the largest reads as -1 |
| `Encoding.CrownFits` | pkg/encoding/encoder.go:34-37 | the crown fits its 16-bit sized buffer if and only if there are at most 16375 processes |
| `Encoding.Put` | pkg/encoding/encoder.go:38-50 | writes exactly the given bytes at the offset and leaves the rest, or does not fit |
| `Encoding.EncodeCrown` | pkg/encoding/encoder.go:33-52 | succeeds exactly up to 16375 processes, with the length, the heights and the control hash |
| `Encoding.EncodeUnit` | pkg/encoding/encoder.go:79-127 | the bytes the round trip is stated for |
| `Encoding.WordsOf` | pkg/encoding/encoder.go:79-127 | numbers are written lowest byte first |
| `Encoding.FieldsFitIs` | pkg/encoding/decoder.go:102-154 | the limits of the wire format in numbers |
| `Encoding.CrownLayout` | pkg/encoding/encoder.go:33-52 | 16 bits for the number of heights, 32 bits each, all ones for -1, and the control hash |
| `Encoding.WireLayout` | pkg/encoding/encoder.go:79-127 | the id, the signature, the crown, the data and the random data are at these offsets, lengths first |
| `Encoding.DecodeHeights` | pkg/encoding/decoder.go:46-57 | the loop reads the heights the round trip is stated for |
| `Encoding.DecodeEncoded` | pkg/encoding/decoder.go:102-154 | an encoded preunit is decoded, leaving what follows it |
| `Encoding.DecodedIsWellFormed` | pkg/encoding/decoder.go:102-154 | whatever the bytes, a decoded preunit is within all bounds |
| `Encoding.DecodesTo` | pkg/encoding/decoder.go:102-154 | bytes decode to a preunit exactly if its fields fit, its height is one more than its own slot of the crown, and they are its encoding and what follows |
| `Encoding.DecodePanics` | pkg/unit/preunit.go:24-41 | bytes bring the decoder down exactly if they encode fields whose height does not match the crown |
| `Encoding.WireRoundTrip` | pkg/encoding/encoder.go:79-127 | a preunit comes back as it was if and only if it is within the bounds and its random data is not nil |
| `Encoding.ReadBackAs` | pkg/encoding/decoder.go:136-154 | nil random data comes back empty, everything else as it was |
| `WireData.AcceptedAfterWire` | pkg/random/coin/coin.go:101-146 | random data is accepted after the wire if and only if it was before and the unit is not a dealing unit of a process that provides no shares |
| `WireData.DealingRejectedElsewhere` | pkg/random/coin/coin.go:41-46 | such a unit is made with nil, accepted where it is made and rejected in its decoded form |
| `Encoding.NilRoundTrip` | pkg/encoding/encoder.go:80-86 | the mark for no unit is read back as no unit |
| `Encoding.NilLayout` | pkg/encoding/encoder.go:80-85 | the mark for no unit is eight bytes of ones |
| `Chunks.ComputeLayer` | pkg/encoding/public.go:73-84 | with its memo, one more than the highest parent layer, 0 outside the chunk |
| `Chunks.LayerInIs` | pkg/encoding/public.go:73-84 | the layer is 0 outside the chunk; inside it is above those of all parents and 1 or directly above one |
| `Chunks.SortChunk` | pkg/encoding/public.go:86-125 | a permutation of the chunk, by epoch and then by layer, keeping the given order within a layer; it does not return exactly if some unit is of the last 32-bit epoch |
| `Chunks.EpochLoopEnds` | pkg/encoding/public.go:115-123 | the wrapping epoch counter passes the last epoch exactly if that is below 2^32 - 1 |
| `Chunks.LastEpochHangs` | pkg/encoding/public.go:115-123 | with a unit of epoch 2^32 - 1 it never does |
| `Chunks.ParentsComeFirst` | pkg/encoding/public.go:86-88 | in a sorted chunk parents come before children |
| `Chunks.AncestorsComeFirst` | pkg/encoding/public.go:86-88 | ancestors come first if the chunk has everything on some way down to them |
| `Chunks.GapKeepsDescendantFirst` | pkg/encoding/public.go:73-123 | with a gap on the only way the result keeps a descendant listed before its ancestor in front of it |
| `Chunks.EncodeChunk` | pkg/encoding/encoder.go:129-144 | fails exactly when there are over a million units or one cannot be encoded, hangs exactly on epoch 2^32 - 1; otherwise the 32-bit number of units and the sorted units |
| `Chunks.ReadChunk` | pkg/encoding/decoder.go:156-172 | reads as many preunits as the first 32 bits say, and fails if those are missing or over a million; the loop reads what the round trip is stated for |
| `Chunks.ChunkRoundTrip` | pkg/encoding/decoder.go:156-172 | a chunk is read back as its units, leaving what follows it, if and only if every unit is well-formed |
| `Commitments.CommitmentForParent` | pkg/forking/commitment.go:158-186 | fails exactly for an empty or foreign commitment; otherwise commits to the unit's predecessor, with the hashes of its parents |
| `Commitments.ParentHashAt` | pkg/forking/commitment.go:170-177 | the hash of every parent in its slot, zeros for an empty one |
| `Commitments.DigestsLayout` | pkg/forking/commitment.go:170-177 | the hashes one after another, 32 bytes each |
| `Commitments.BaseLayout` | pkg/forking/commitment.go:33-41 | eight bytes of the id, lowest first, and the encoded unit |
| `Commitments.CommitDown` | pkg/forking/alert.go:189-199 | going down the predecessors makes the commitments built from the links down the unit |
| `Commitments.LinksDownGood` | pkg/forking/commitment.go:127-156 | those links are justified by the control hashes |
| `Commitments.BuiltEncoded` | pkg/forking/commitment.go:158-186 | the last commitment marshals to the base commitment and all links |
| `Commitments.Acquire` | pkg/forking/commitment.go:268-313 | the reading loop computes what the chain lemmas are stated for |
| `Commitments.AcquiredIsChain` | pkg/forking/commitment.go:127-156 | whatever the bytes, each commitment acquired is justified by the one before it |
| `Commitments.ChainGoesDown` | pkg/forking/commitment.go:127-156 | without collisions a chain from a unit commits to its predecessors, each in turn, and to nothing else |
| `Commitments.CommitmentsRoundTrip` | pkg/forking/commitment.go:268-313 | the last commitment, marshalled and closed with the nil mark, is read back as the whole chain |
| `Commitments.CommitDownRoundTrip` | pkg/forking/commitment.go:268-313 | what a node commits to down a unit is what another node reads back |
| `Commitments.CommitBase.Add` | pkg/forking/commitment.go:201-217 | replaces an entry only while it justified no parent; a member's first commitment stays |
| `Commitments.CommitBase.AddBatch` | pkg/forking/commitment.go:240-249 | accepts exactly a batch that starts at the proof's unit, and registers all of it and nothing else; entries that justified a parent and first commitments of members stay |
| `Commitments.AcquiredGoesDown` | pkg/forking/commitment.go:268-313 | what is read and starts at a unit goes down its predecessors |
| `Commitments.CommitBase.Receive` | pkg/forking/alert.go:320-336 | what is registered under a proof is its unit or a predecessor of it; all of it if the batch starts there, nothing otherwise |

## Left out

- `Creating.Creator.Update`: within one epoch and with nobody frozen; own units arrive only from ourselves. In the mode without level skipping the delivered units are assumed to pass the check against skipping.
- `Creating.NewUnitCompliant`: not the forker-muting rule, which freezing parents is for.
- `Adding.DispatchedPromptly`: parents that this node made itself do not come through the buffer.
- `Adding.Adder.AddToWaiting`: no two submitted preunits share an id and a purged id is not submitted again; one epoch. The clock is a parameter.
- `Adding.Adder.Work`: whether the control hash, the disambiguation of forked parents and the checks accept the unit is a parameter; the dag is the set of inserted ids.
- `Adding.Adder.Remove`: a failing preunit is purged only where the purge returns; `Adding.PurgeReturns` says where.
- `Coining.Coin.CheckCompliance`: the signature check is equality with the one valid signature, and what unmarshals to a share is a parameter.
- `Coining.Coin.DataToInclude`: how shares combine is a parameter.
- `Commitments.Acquire`: reading consumes a byte sequence; partial reads of the memorising reader are not modelled.
- The level returned for a decision already cached; it is only logged.
- The fast-fail branch of deciding: `Voting.EffIsDecided` shows that it is never taken.
- Floors are recomputed instead of stored with the unit, and votes and layers are keyed by units instead of hashes.
- `sort.Slice` is modelled by an insertion sort; `HashOrder.SortIsUnique` shows that the algorithm does not matter.
- Termination of the coin phase, which is probabilistic.
- Cryptography: signatures, threshold keys, SHAKE128 and SHA3 are parameters with the uniqueness the protocol relies on; the beacon is left out.
- Alerts, and disambiguation of parents through commitments.
- Encoding of dag summaries, which would only repeat the argument for crowns.
- Epoch changes, epoch proofs and the data put into units.
- Freezing parents in the creator, which does not update the level counters.
- The orderer's preblocks and its summary of missing units.
- Network servers, synchronisation, reliable multicast, configuration, commands and logging.
