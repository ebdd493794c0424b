# Bullshark and Narwhal: verified model

A Dafny model of the commit engine of this Bullshark implementation and of the Narwhal certificate layer that feeds it,
with two pieces beside them: the adversary's silence schedule and the reliable-send queue. It verifies with
`dafny verify dfyconfig.toml` (Dafny 4.11).

## How it is built

- **Functions first.** `Engine`, `Handlers`, `Proposing`, `Aggregators`, `Adversary` and `ReliableSender` say as functions
  on values what one step of the program does. Runs are folds of these functions over a log, so a theorem about a run
  speaks of every sequence of messages.
- **Objects beside them.** `ConsensusNode`, `CoreNode`, `ProposerNode`, the two aggregator classes and `Connection` update
  fields in loops as the program does; each method is proved to compute the function. `Consensus.Deliver` keeps the whole
  object equal to `Engine.Run` of everything delivered; `CoreNode.Core` holds its aggregator objects.
- **The engine's theorems** live in `Dags`, `Retention`, `SubDags`, `Commits`, `Steady`, `Agreement`, `Anchors`, `Peaks`,
  `Fallback` and `Verdicts`, with `Memory` and `SearchOrder` on what exactly is held and in which order it is output. They
  hold for any finite set of certificates with one certificate per slot and quorum parents (`GoodDag`) and any log that
  delivers parents first (`Causal`).
- **The certificate layer discharges those two assumptions.** `Delivery`, `Fates`, `Effects` and
  `CoreRuns` speak of one core against arbitrary messages, `ProposerSafety` and `ProposerRuns` of its proposer.
  `Protocol`, `CoreSafety`, `SecondVotes`, `Systems` and `Uniqueness` put honest cores together with Byzantine authorities
  holding less than a third of the stake, which may send anything not signed by an honest one.
  `Composition.WhatConsensusAssumes` says exactly when `GoodDag` holds and derives `Causal`; `EndToEnd` restates the
  engine's results for every good run of the whole system; `ProposalFlow` closes the loop from the core through the
  proposer back to the core.

## What the code does not do

Seven properties one would expect fail. Each failure is a concrete run of the model, with the code's own branches and
constants, and each comes with the exact condition under which the code meets the property.

- **The backward walk starts one round too high.** The range at `consensus/src/lib.rs:372` reversed starts at `L - 1`, so
  between two even rounds it visits only odd rounds and never an earlier leader (`Anchors.CodeWalkSkipsAnchors`). Two nodes
  can then commit conflicting sequences (`Divergence.CodeWalkDiverges`). They agree exactly when their last committed rounds
  went through the same peaks, which depend on the order of deliveries alone (`Peaks.CodeWalkAgreesExactly`).
  `Config.walkStep` is 1 for the code and 2 for the walk over `L - 2, L - 4, ...` that the leader rounds call for; with 2
  no condition on peaks is needed (`Anchors.AnchorWalkAgreesOnLeaders`).
- **A stale redelivery can be committed twice** (`Redelivery.StaleDeliveryCommitsTwice`): the skip at
  `consensus/src/lib.rs:434` compares rounds for equality. Nothing is output twice exactly when no commit's oldest leader
  reaches, in memory, something already output (`Commits.NoDoubleCommitExactly`).
- **History can be dropped.** `State::update` forgets everything below an author's last committed round, committed or not.
  Nodes then agree on the leaders and not on the output (`DroppedHistory.SameLeadersDifferentOutput`). They agree exactly
  when memory was intact at every commit (`Agreement.SameLeadersSameOutput`, `Agreement.CommitsPendingExactly`), which
  `Agreement.OwnHistory` without stale deliveries guarantees.
- **Votes are forgotten.** `last_voted` is cleaned up while headers handed back by the waiter are not checked against
  `gc_round`, so a slot can be voted for twice (`Forgetting.LoopbackVotesTwice`) and get two certificates
  (`Forgetting.TwoCertificates`). `Systems.OneVoteExactly` says exactly when authorities vote once, and
  `Uniqueness.SlotsUniqueExactly` exactly when slots stay unique: second votes of little stake do no harm. Checking
  `gc_round` in `process_header` would be enough (`SecondVotes.RevotesBelowHorizon`).
- **A late quorum takes the core down.** Votes are not checked against `gc_round` either; the one that completes a quorum
  for an old own header makes the core vote for itself again and fail its own `expect` (`Forgetting.LateVotePanics`).
  `SecondVotes.LateQuorumExactly` and `Systems.NeverPanicsExactly` say exactly when.
- **In adversary mode verdicts can split.** A wave is decided on the first quorum of its last round that a node happens to
  see. Two nodes with the same certificates can decide differently and output conflicting sequences
  (`SplitVerdict.VerdictsSplit`). They agree exactly when these quorums both, or neither, hold a quorum of descendants of
  the fallback (`Verdicts.SameVerdictExactly`, `Verdicts.FallbackAgreement`).
- **A certificate that compares equal to genesis is not checked**, whatever its parents. With parents it can reach
  consensus and take the slot of a genesis certificate (`LookAlike.LookAlikeBreaksDag`). Where slots are unique, the DAG is
  good exactly when none of those sent has parents (`Composition.WhatConsensusAssumes`).

The comment in `CertificatesAggregator::append` (`primary/src/aggregators.rs:79`) suggests a quorum is reached once; that
line is disabled, and `Aggregators.ParentsConserved` proves what happens instead.

## Hypotheses

- `Protocol.Admissible` and `Protocol.Timely`: signatures are ideal and cover what the code hashes; the header hash is
  injective; waiters hand back only what they were given, at any time and any number of times; own headers come in ascending
  rounds over parents the core knows (proved of the proposer in `ProposalFlow`); the consensus round does not go back; nodes
  do not restart. Certificates that compare equal to genesis may have any content, and nothing is assumed about `gc_round`.
- Byzantine authorities hold less than a third of the stake.
- `Systems.NeverPanics` where a row says so: by `Systems.NeverPanicsExactly` it excludes only second votes for own headers.
- `Composition.GoodRun` for the whole system: no panic and a good DAG, by `Composition.WhatConsensusAssumes` no more than
  that. `Composition.OnceIsGood` and `Composition.UniqueSlotsSend` say what guarantees it.

`Witness.WitnessRun` meets the hypotheses on the system in a concrete run with a Byzantine authority, and the runs of
`Divergence` meet those on the engine.

## Model

| member | source | states |
|---|---|---|
| `Committees.Committee.QuorumMeetsValidity` | `config/src/lib.rs:167-181` | 2f+1 and f+1 always have an authority in common, whatever rounding the two divisions do |
| `Committees.Committee.QuorumsShareHonest` | `config/src/lib.rs:167-173` | two quorums share an authority outside any set that holds less than a third of the stake |
| `Committees.Committee.WeightInsert` | `config/src/lib.rs:153-156` | counting one more authority into a set adds exactly its stake |
| `Dags.AnchorPersistence` | `consensus/src/lib.rs:190-222` | a leader that f+1 stake of the next round points at is an ancestor of every certificate two or more rounds up, at any node |
| `Dags.SupportPersists` | `consensus/src/lib.rs:190-222` | any set of certificates of one round that meets every quorum and reaches a leader makes all later certificates reach it |
| `Retention.InvUpdate` | `consensus/src/lib.rs:48-63` | committing a certificate keeps the invariant, and leaves in memory exactly the certificates that are neither below their author's last committed round nor more than the GC depth behind the last committed round |
| `Memory.MemoryExactly` | `consensus/src/lib.rs:48-63` | in every run, after a delivery that commits, memory holds exactly the delivered certificates not below their author's last committed round and not more than the GC depth behind the last committed round; other deliveries only add their certificate |
| `Retention.LinkedIsReachable` | `consensus/src/lib.rs:392-404` | for certificates not below the last committed round the walk over the pruned DAG answers reachability in the full delivered DAG, both ways |
| `Retention.RowPresent` | `consensus/src/lib.rs:394-398` | every round the walk looks up is in memory: the `expect` in `linked` never fails |
| `Retention.LevelIsReachable` | `consensus/src/lib.rs:393-402` | the certificates found by going down round by round are exactly the reachable ones of that round |
| `SubDags.OrderDagExact` | `consensus/src/lib.rs:408-448` | the flattened sub-DAG is, once each and lowest rounds first, exactly what the leader reaches through certificates in memory that are not at their author's last committed round, cut at the GC horizon |
| `SubDags.DfsVisits` | `consensus/src/lib.rs:410-440` | the stack search terminates and visits exactly the reachable certificates, each once |
| `SearchOrder.SearchIsDepthFirst` | `consensus/src/lib.rs:410-440` | the search starts at the leader and always goes on with the certificate that, of those listed as parents by the visited ones and not visited yet, was listed last |
| `SearchOrder.FlattenedInSearchOrder` | `consensus/src/lib.rs:408-448` | the flattened sub-DAG has lower rounds first and within each round the certificates above the GC horizon in the order of that search: its order is fully determined |
| `SearchOrder.SortIsStable` | `consensus/src/lib.rs:445-446` | sorting by round keeps the order within every round |
| `SubDags.SortByRoundSorts` | `consensus/src/lib.rs:445-446` | sorting orders by round and keeps the multiset |
| `Commits.RoundsDownExact` | `consensus/src/lib.rs:372-374` | the reversed range stepped by two visits `from`, `from - 2`, ... down to the bound: membership both ways, in that order |
| `Commits.WalkIsChain` | `consensus/src/lib.rs:369-389` | the leaders found are those of visited rounds, with strictly decreasing rounds, each linked to the next older one |
| `Commits.InvCommitLeaders` | `consensus/src/lib.rs:239-260` | committing several leaders, each with its sub-DAG, keeps the invariant and ends with the last committed round at the newest leader |
| `Commits.RunSound` | `consensus/src/lib.rs:113-321` | every state a run can reach, whatever arrives late or twice, satisfies the invariant relating memory, output and delivered set |
| `Commits.NoDoubleCommit` | `consensus/src/lib.rs:239-260` | what a caller can check delivery by delivery: if no delivered certificate is an already committed one from below its author's last committed round, nothing is output twice, nor anything that was not delivered, nor genesis |
| `Commits.CommitRepeatsExactly` | `consensus/src/lib.rs:239-260` | the exact guard of one commit: it repeats nothing within itself, and repeats an earlier output exactly if its oldest leader reaches, in memory, an output certificate within the GC depth that is not at its author's last committed round |
| `Commits.NoDoubleCommitExactly` | `consensus/src/lib.rs:239-260` | in every run, late and repeated deliveries included, nothing is output twice if and only if no commit of the run meets that guard |
| `Steady.DecidesBySupport` | `consensus/src/lib.rs:130-222` | at a leader round above the last committed one a node commits exactly if the leader has f+1 supporting stake among all certificates delivered so far, memory pruning notwithstanding |
| `Steady.SteadyRun` | `consensus/src/lib.rs:113-260` | after every run the last committed round is the highest even round whose leader has f+1 support in the delivered set, 0 if none: no supported leader is missed |
| `Steady.ArrivalOrderIrrelevant` | `consensus/src/lib.rs:113-260` | two nodes given the same certificates, in any causal orders, have committed up to the same round |
| `Agreement.OrderDagIsSubDag` | `consensus/src/lib.rs:408-448` | from an intact memory (everything pending still there, nothing stale within reach) the flattened sub-DAG is a function of the full DAG and what is committed, whatever else is in memory |
| `Agreement.SubDagElements` | `consensus/src/lib.rs:408-448` | that function gives exactly the uncommitted ancestors-or-self above the GC horizon, each once, parents before children |
| `Agreement.CommitsPendingExactly` | `consensus/src/lib.rs:408-448` | a commit outputs exactly the uncommitted ancestors-or-self above the GC horizon if and only if memory is intact |
| `Agreement.LosesNothingExactly` | `consensus/src/lib.rs:57-62` | if nothing stale is in memory, a commit loses nothing if and only if no pending certificate was dropped by the clean-up |
| `Agreement.RunDeterminedExactly` | `consensus/src/lib.rs:229-260` | the whole output of a run is a function of the leaders committed in it if memory was intact at every commit, and differs from that function otherwise |
| `Agreement.OwnHistoryRun` | `consensus/src/lib.rs:57-62` | memory is intact throughout if certificates descend from their author's earlier ones and nothing stale is delivered |
| `Agreement.SameLeadersSameOutput` | `consensus/src/lib.rs:229-260` | against a run with intact memory, a run with the same leaders outputs the same sequence if and only if its memory was intact too; and more leaders then only append |
| `Anchors.WalkOfPruned` | `consensus/src/lib.rs:369-389` | the backward walk over the pruned DAG finds what it would find in the full DAG: it depends on the last committed round and the leader's history only |
| `Anchors.WalkVisitsByParity` | `consensus/src/lib.rs:372-386` | of the supported leaders between the last committed round and the committed leader, the walk commits exactly those at a distance of the parity of its first step |
| `Anchors.CodeWalkSkipsAnchors` | `consensus/src/lib.rs:372-374` | between even rounds the walk as written visits only odd rounds L-1, L-3, ..., so never a leader round |
| `Anchors.AnchorWalkAgreesOnLeaders` | `consensus/src/lib.rs:368-389` | not of the code but of the walk its leader rounds call for, over L-2, L-4, ...: the leader sequences of any two nodes are prefixes of one another |
| `Anchors.AnchorWalkTotalOrder` | `consensus/src/lib.rs:229-260` | and so are their outputs, when memory was intact at every commit |
| `Peaks.PeaksDetermineLeaders` | `consensus/src/lib.rs:229-260` | with any step of the walk, the leaders a node commits are a function of the DAG and of the peaks of its log: the successive highest supported leader rounds of what was delivered, in which no node state occurs |
| `Peaks.CodeWalkAgreesExactly` | `consensus/src/lib.rs:369-389` | with the walk as written, the leaders of one node are a prefix of those of another if and only if so are their peaks |
| `Peaks.CodeWalkOrder` | `consensus/src/lib.rs:229-260` | with the walk as written, peaks in prefix order and intact memory give outputs in prefix order; for equal peaks the outputs are equal if and only if the second memory was intact too |
| `Peaks.PeaksDetermineOutput` | `consensus/src/lib.rs:229-260` | the output of a run is a function of its peaks if and only if memory was intact at every commit |
| `Divergence.CodeWalkDiverges` | `consensus/src/lib.rs:369-389` | with the walk as written two nodes on one valid DAG, nothing delivered twice, output conflicting sequences: neither list of peaks is a prefix of the other |
| `Redelivery.StaleDeliveryCommitsTwice` | `consensus/src/lib.rs:428-438` | a committed certificate delivered again below its author's last committed round is output a second time: a concrete run |
| `DroppedHistory.SameLeadersDifferentOutput` | `consensus/src/lib.rs:57-62` | a certificate not built on its author's previous one: same certificates, same leaders, different output, the memory of one run being intact and that of the other not |
| `Verdicts.LeadersAreVerdicts` | `consensus/src/lib.rs:136-227` | in every run in adversary mode the fallback rounds 2, 6, 10, ... are resolved in order, each once and without gap, when a quorum of the wave's last round is first visible, and the leaders committed are exactly the fallbacks whose descendants held a quorum in it |
| `Verdicts.SameVerdictExactly` | `consensus/src/lib.rs:136-227` | two nodes that both resolved a wave give it the same verdict if and only if their first visible quorums both, or neither, hold a quorum of descendants of its fallback |
| `Verdicts.FallbackAgreement` | `consensus/src/lib.rs:229-260` | a node commits on the waves it resolved what another commits on them if and only if they give these waves the same verdicts; then leaders, and with intact memory outputs, are in prefix order |
| `SplitVerdict.VerdictsSplit` | `consensus/src/lib.rs:136-227` | two nodes, the same certificates in two causal orders, memory intact on both: one commits the fallback of the first wave, the other skips it, and their outputs conflict |
| `Fallback.CommittedFallbackPersists` | `consensus/src/lib.rs:195-213` | a committed fallback leads neither steady round of its wave and is an ancestor of every certificate four or more rounds up |
| `Fallback.FallbackIsNotSteady` | `consensus/src/lib.rs:343-366` | the fallback drawn for a wave is a committee member other than its two steady leaders |
| `Fallback.DrawExactly` | `consensus/src/lib.rs:343-366` | wave k draws, from the authorities in ascending order without its two steady leaders, the one at k times 0x9E377A39, as long as nothing wraps |
| `Fallback.IndexRotates` | `consensus/src/lib.rs:360-363` | in general the seven top bits of the wave come back at the bottom, and sum and product wrap at 64 bits |
| `ConsensusNode.State.Insert` | `consensus/src/lib.rs:122-127` | the map of maps holds the new certificate in its slot and everything else as before |
| `ConsensusNode.State.Update` | `consensus/src/lib.rs:48-63` | the new state is `Engine.Update` of the old one: raised author round, their maximum, memory swept author by author |
| `ConsensusNode.Consensus.Linked` | `consensus/src/lib.rs:392-404` | the loop over rows answers `Engine.Linked`, given that the rows are in memory |
| `ConsensusNode.Consensus.OrderLeaders` | `consensus/src/lib.rs:369-389` | the loop over rounds returns `Engine.OrderLeaders` |
| `ConsensusNode.Consensus.OrderDag` | `consensus/src/lib.rs:408-448` | the stack loop returns `Engine.OrderDag` |
| `ConsensusNode.Consensus.Decide` | `consensus/src/lib.rs:129-222` | the branches of the main loop decide as `Engine.Decide` |
| `ConsensusNode.Consensus.Deliver` | `consensus/src/lib.rs:118-320` | after each delivery the object holds what `Engine.Run` gives for the whole log, without a failing lookup |
| `Messages.VerifyExact` | `primary/src/messages.rs:189-215` | a certificate verifies exactly if it compares equal to genesis, or its header verifies (identifier, stake, worker identifiers) and its votes are by distinct authorities with stake that hold a quorum |
| `Messages.HeaderVerifies` | `primary/src/messages.rs:48-67` | a header verifies exactly if its identifier is the hash, its author has stake, and its author has every worker named; the first of these that fails gives the error |
| `Messages.CheckVotesExact` | `primary/src/messages.rs:198-211` | the vote loop accepts exactly distinct voters with stake and a quorum in total |
| `Messages.VerifyCertificate` | `primary/src/messages.rs:189-215` | the loop computes `Messages.Verify`, including which error comes first |
| `Aggregators.OneCertificate` | `primary/src/aggregators.rs:24-45` | over any votes, repeated or not, one certificate comes out exactly if the distinct voters hold a quorum, and none otherwise, although the weight is reset to 0; its votes pass `Certificate::verify` |
| `Aggregators.FeedCounts` | `primary/src/aggregators.rs:24-45` | the same from any state: after a certificate the late votes never make a second quorum |
| `Aggregators.VotesAggregator.Append` | `primary/src/aggregators.rs:24-45` | the object changes as `AppendVote` says |
| `Aggregators.ParentsConserved` | `primary/src/aggregators.rs:64-83` | batches handed out plus the pending list are the first certificate of each author in order; the first batch holds a quorum and every later one a single certificate |
| `Aggregators.FirstPerAuthorExact` | `primary/src/aggregators.rs:69-74` | the first-per-author subsequence repeats no author and misses none |
| `Aggregators.CertificatesAggregator.Append` | `primary/src/aggregators.rs:64-83` | the object changes as `AppendCertificate` says; the weight is not reset, so every certificate after the quorum is a batch |
| `Delivery.CausalDelivery` | `primary/src/core.rs:251-304` | in every run of a core, of any messages in any order and through the recursive calls, the store holds exactly the certificates sent, each sent after all its parents, and the batches for the proposer start with a quorum in every round |
| `Delivery.VoteExactly` | `primary/src/core.rs:153-192` | any header, own or not, is voted for exactly if its parents are known, all of the round below and hold a quorum, its payload is there, and no vote of its author and round is remembered |
| `Delivery.ParentsFound` | `primary/src/synchronizer.rs:89-118` | `get_parents` returns the certificates of all parents, in order, exactly if each is genesis or stored |
| `Delivery.ParentsPass` | `primary/src/core.rs:159-171` | the parent check passes exactly if all parents are of the previous round and the stake counted parent by parent reaches a quorum |
| `Fates.HeaderTakenUp` | `primary/src/core.rs:306-318` | a header that arrives is taken up exactly if it is not below `gc_round` and verifies; otherwise nothing changes |
| `Fates.VoteTakenUp` | `primary/src/core.rs:320-336` | a vote is taken up exactly if it is one for the current header by an authority with stake |
| `Fates.CertificateTakenUp` | `primary/src/core.rs:338-346` | a certificate is taken up exactly if it is not below `gc_round` and compares equal to genesis, or its header verifies and distinct authorities with a quorum of stake voted |
| `Fates.HeaderFate` | `primary/src/core.rs:142-214` | case by case: a header waits for a missing parent or batch, is refused for a parent of a wrong round or for want of a quorum, with that error, is stored without a vote if its author has one for the round, or is stored and voted for |
| `Fates.VoteFate` | `primary/src/core.rs:217-248` | a second vote by an author changes nothing, a first one is counted, and a certificate over the current header with all votes counted comes out exactly when their authors first hold a quorum |
| `Fates.CertificateFate` | `primary/src/core.rs:251-304` | a certificate taken up, or handed back by the waiter, is stored and sent when all its parents are known and otherwise waits, after its header was dealt with unless that is being processed |
| `Effects.HandleSteps` | `primary/src/core.rs:349-389` | every handler, through its recursive calls, is a sequence of single steps each taken under its condition |
| `CoreRuns.VotesHavePayload` | `primary/src/synchronizer.rs:50-84` | in every run, of any messages, a core that voted for a header of another authority had received every batch of its payload, and has every header it voted for in its store |
| `CoreRuns.BatchesAreExact` | `primary/src/core.rs:281-293` | in every timely run, for every round from `gc_round` on, the batches handed to the proposer followed by the pending list are the first certificate of each author among those sent of the round, in order, and there is a batch exactly if those authors hold a quorum |
| `CoreRuns.ProcessingKept` | `primary/src/core.rs:143-148` | in every timely run the headers of rounds from `gc_round` on that were voted for or wait are known as being processed |
| `CoreRuns.ForgetsExactly` | `primary/src/core.rs:400-409` | if the consensus round does not go back, `gc_round` is the one read last less the depth, and votes, processed headers and aggregators of all lower rounds are forgotten |
| `CoreSafety.HeaderKeeps` | `primary/src/core.rs:142-214` | handling any header that may reach the core, of any round, keeps the invariant (votes are remembered from `gc_round` on and go to grounded headers only) and does not panic, unless the core votes again for an own header |
| `CoreSafety.CertificateKeeps` | `primary/src/core.rs:251-304` | handling a certificate keeps the invariant, with the same exception: stored, sent and suspended certificates are backed by votes that were cast, or compare equal to genesis |
| `CoreSafety.VoteKeeps` | `primary/src/core.rs:217-248` | a vote for the current header keeps it, with the same exception; a certificate that comes out is backed |
| `CoreSafety.OwnHeaderKeeps` | `primary/src/core.rs:117-139` | an own header is stored, voted for at once and never fails |
| `CoreSafety.CleanupKeeps` | `primary/src/core.rs:400-409` | the clean-up keeps the invariant: votes are still remembered from the new `gc_round` on |
| `CoreSafety.CleanupForgets` | `primary/src/core.rs:400-409` | it forgets the rows of votes, processed headers and aggregators below the new `gc_round` and leaves all others, and everything else, as they were |
| `CoreSafety.StepKeeps` | `primary/src/core.rs:349-411` | one turn of the main loop on any admissible message keeps the invariant and does not panic, unless the core votes again for an own header |
| `SecondVotes.RevoteBreaks` | `primary/src/core.rs:142-192` | a message that revotes casts a second vote for a slot, in any reachable state |
| `SecondVotes.RevotesBelowHorizon` | `primary/src/core.rs:306-310` | revoting needs a header below `gc_round`: the check that received headers get would rule it out for the others |
| `SecondVotes.OneVoteStep` | `primary/src/core.rs:349-411` | a turn of a core that voted once per author and round leaves it so if and only if it does not revote: process a header whose slot had a vote that was forgotten |
| `SecondVotes.LateQuorumExactly` | `primary/src/core.rs:193-197` | in any state reached without a panic, a vote for the own header panics the core if and only if it completes the quorum when the clean-up has dropped both the header from `processing` and the own vote from `last_voted` |
| `SecondVotes.PanicsExactly` | `primary/src/core.rs:193-203` | in any such state, an admissible message of any kind panics the core if and only if it makes it vote a second time for an own header |
| `Systems.RunIsSafe` | `primary/src/core.rs:349-411` | in every run of the honest authorities against arbitrary Byzantine messages in which no core panics, second votes or not, every honest core keeps its invariant |
| `Systems.NeverPanicsExactly` | `primary/src/core.rs:194-203` | over every run of the system, no `expect` of the handlers fails if and only if no turn votes a second time for an own header |
| `Systems.OneVoteExactly` | `primary/src/core.rs:184-192` | over every run of the system, every honest authority votes at most once per author and round if and only if no turn revotes |
| `Uniqueness.CertifiableExactly` | `primary/src/messages.rs:189-215` | a header can get a certificate that verifies if and only if its honest voters together with the Byzantine authorities hold a quorum |
| `Uniqueness.BothCertifiableExactly` | `primary/src/core.rs:184-192` | two headers can both be certified if and only if that holds of each; then those who voted for both and the Byzantine authorities hold more than a third of the stake |
| `Uniqueness.SlotsUniqueExactly` | `primary/src/core.rs:184-192` | all certificates of an author and round are over one header, throughout, if and only if no slot has two headers so endorsed |
| `Uniqueness.OneCertificatePerSlot` | `primary/src/core.rs:184-192` | in every run of the system, panics and second votes included, two certificates of one author and round are over one header unless the authorities that voted for both, with the Byzantine ones, hold more than a third of the stake; in a run without second votes they always are |
| `Composition.CertifiedParents` | `primary/src/core.rs:153-192` | every certified header has parents by distinct authors, all of the previous round, with quorum stake, each genesis or certified |
| `Composition.WhatConsensusAssumes` | `primary/src/core.rs:295-302` | in a run without a panic the certificates sent form a DAG with one certificate per slot and quorum parents if and only if none that compares equal to genesis has parents and no two differ in one slot, and then each honest node sends them causally: what the theorems on the engine require |
| `Composition.UniqueSlotsSend` | `primary/src/core.rs:295-302` | no two sent certificates differ in one slot when no slot has two certifiable headers |
| `Composition.OnceIsGood` | `primary/src/core.rs:295-302` | if no vote is cast a second time, a run is good (no panic, a good DAG) if and only if no certificate sent that compares equal to genesis has parents |
| `LookAlike.LookAlikeBreaksDag` | `primary/src/messages.rs:189-193` | a concrete run in which a certificate equal to genesis but with parents is refused when it first comes and sent to consensus when it comes again |
| `Witness.WitnessRun` | `primary/src/core.rs:349-411` | a run with an own header, and a header, a vote and a certificate of a Byzantine authority, is a good run in the sense of `Composition.GoodRun` without second votes and sends both certificates: the hypotheses on the system do not contradict each other |
| `EndToEnd.SupportBindsEveryone` | `consensus/src/lib.rs:190-222` | in every good run of the system a leader one honest node sees supported is an ancestor of all that any honest node delivers two rounds up |
| `EndToEnd.SameCertificatesSameRound` | `consensus/src/lib.rs:113-260` | in every good run honest nodes whose engines got the same certificates are at the same committed round |
| `EndToEnd.OutputsOnce` | `consensus/src/lib.rs:287-319` | in every good run an honest engine outputs only what was delivered or genesis, and nothing twice if and only if no commit's oldest leader runs into something output |
| `EndToEnd.TotalOrder` | `consensus/src/lib.rs:229-260` | in every good run, with the walk over the anchors, honest outputs of nodes with intact memory are prefixes of one order |
| `EndToEnd.CodeOrder` | `consensus/src/lib.rs:229-260` | in every good run, with the walk as written, honest leaders are in prefix order if and only if the peaks of the deliveries are; outputs then follow with intact memory, and for equal peaks they are equal if and only if the second memory was intact too |
| `EndToEnd.FallbackOrder` | `consensus/src/lib.rs:136-227` | in every good run in adversary mode, an honest node commits on the waves it resolved what another commits on them if and only if they give these waves the same verdicts; outputs then follow with intact memory |
| `Forgetting.LoopbackVotesTwice` | `primary/src/core.rs:377-380` | a run of admissible messages in which a core votes for two headers of one author and round, the second handed back by the header waiter |
| `Forgetting.TwoCertificates` | `primary/src/core.rs:377-380` | in that run both headers come to be certified: two certificates that verify, of one author and round |
| `Forgetting.LateVotePanics` | `primary/src/core.rs:193-197` | a run of two honest authorities, all messages signed and in time, whose last turn panics |
| `CoreNode.Core.ProcessHeader` | `primary/src/core.rs:142-214` | the method changes the core and the aggregators it owns as `Handlers.ProcessHeader` says, through the recursive calls |
| `CoreNode.Core.Aggregate` | `primary/src/core.rs:281-287` | the aggregator of the certificate's round, made on first use, takes the certificate and may give a batch; those of other rounds are as before |
| `CoreNode.Core.ProcessOwnHeader` | `primary/src/core.rs:117-139` | the method starts a new votes aggregator and changes the core as `Handlers.ProcessOwnHeader` says |
| `CoreNode.Core.ProcessVote` | `primary/src/core.rs:217-248` | likewise for votes |
| `CoreNode.Core.ProcessCertificate` | `primary/src/core.rs:251-304` | likewise for certificates |
| `CoreNode.Core.TakeTurn` | `primary/src/core.rs:349-411` | one turn of the main loop is `Handlers.Step`: sanitize, handle, clean up |
| `CoreNode.Core.GetParents` | `primary/src/synchronizer.rs:89-118` | the loop returns all parents in order, or nothing if one is missing |
| `CoreNode.Core.CheckParents` | `primary/src/core.rs:159-171` | the loop gives the result of `Handlers.CheckParents`, the first offending parent deciding the error |
| `CoreNode.Core.MissingPayload` | `primary/src/synchronizer.rs:50-84` | the loop finds whether a batch of a foreign header is missing |
| `CoreNode.Core.DeliverCertificate` | `primary/src/synchronizer.rs:122-137` | true exactly if all parents are genesis or stored; otherwise the certificate is suspended |
| `ProposerSafety.HeadersAreGood` | `primary/src/proposer.rs:247-328` | every header made lists distinct parents all of the round below with quorum stake, header rounds strictly increase, and none is made in a round in which the author is among the silent authorities |
| `ProposerSafety.HappyPath` | `primary/src/proposer.rs:255-289` | a header made before the timer expires lists the leader of an even round below, or after an odd one no leader is known, or its votes hold 2f+1 stake, or the others f+1 |
| `ProposerSafety.TallyExact` | `primary/src/proposer.rs:221-230` | the two accumulators are the stake of the parents that list the leader and of those that do not |
| `ProposerRuns.PayloadsAreReceived` | `primary/src/proposer.rs:165-173` | over every run each header carries exactly the digests received since the header before, each with the worker named last, and the rest waits for the next: none is lost or proposed twice, whatever rounds are silent or skipped |
| `ProposerRuns.RunInHand` | `primary/src/proposer.rs:292-311` | in every run the parents in hand are exactly those received for the current round, with genesis at round 0 |
| `ProposerRuns.EntersRound` | `primary/src/proposer.rs:255-289` | the next round is entered exactly if there are parents and the timer expired or the waiting batches fill a header on the happy path; a header is made exactly if the authority is not silent, over exactly the parents in hand |
| `ProposerRuns.AdvanceExactly` | `primary/src/proposer.rs:312-317` | the loop is on the happy path exactly if, at an even round, a parent is by the leader, and at an odd one no leader is known or the votes for it reach 2f+1 or the others f+1 |
| `ProposerRuns.LeaderIsLeader` | `primary/src/proposer.rs:198-211` | the last leader known is of an even round and by that round's leader |
| `ProposerRuns.LastLeaderExactly` | `primary/src/proposer.rs:198-211` | the last leader known is the first parent by the leader of the round when parents last came in an even round, unless a silent round was entered since |
| `ProposalFlow.OwnHeadersAreAccepted` | `primary/src/proposer.rs:165-195` | headers made from the batches a core sent are accepted by that core at once: parents distinct, known, of the round below, with a quorum |
| `ProposerNode.Proposer.UpdateLeader` | `primary/src/proposer.rs:198-211` | the last leader becomes the first parent by the round's leader, if any |
| `ProposerNode.Proposer.EnoughVotes` | `primary/src/proposer.rs:215-244` | the loop decides `Proposing.EnoughVotes` |
| `ProposerNode.Proposer.TakeTurn` | `primary/src/proposer.rs:254-326` | one turn of the main loop is `Proposing.Step` |
| `Adversary.ExactlyFaultsSilent` | `primary/src/adversary.rs:18-46` | exactly min(faults, n) authorities are selected in a round, the steady leader among them when there are faults |
| `Adversary.LowestScoresSilent` | `primary/src/adversary.rs:38-45` | beside the steady leader the authorities with the lowest scores are silent, ties going to the lower key |
| `Adversary.RankMeetsSorting` | `benchmark/benchmark/adversary_schedule.py:48-57` | counting ranks selects the same authorities as taking the first faults-1 candidates in (score, key) order |
| `Adversary.BuildClientSchedules` | `benchmark/benchmark/adversary_schedule.py:48-60` | the schedules built round by round by sorting say, bit by bit, what the primaries work out by rank |
| `Adversary.RankIsPosition` | `primary/src/adversary.rs:38-45` | in score order an authority's rank is its position |
| `Adversary.PausesExactly` | `benchmark/benchmark/adversary_schedule.py:48-60` | a client pauses in a round exactly if it is told to and its authority is silent in it |
| `ReliableSender.RunKeeps` | `network/src/reliable_sender.rs:140-247` | over any interleaving of sends, acknowledgements, cancellations, failures and reconnections the queue stays in order of acceptance and complete |
| `ReliableSender.ExactlyOnce` | `network/src/reliable_sender.rs:140-247` | an open, unacknowledged message is queued exactly once, an acknowledged one never |
| `ReliableSender.OnlyOpenAreSent` | `network/src/reliable_sender.rs:193-237` | after any events, only the first message of the buffer is transmitted, only if its handler is open, and only the oldest unanswered one is acknowledged |
| `ReliableSender.AcksMatchTransmissions` | `network/src/reliable_sender.rs:220-237` | the k-th acknowledgement on a connection goes to the handler of the k-th message sent on it |
| `ReliableSender.Connection.Retain` | `network/src/reliable_sender.rs:174-175` | the buffer keeps the messages whose handler is open, in order |
| `ReliableSender.Connection.Requeue` | `network/src/reliable_sender.rs:241-245` | unanswered messages go back in front of the buffer in their order |
| `ReliableSender.Connection.Send` | `network/src/reliable_sender.rs:193-213` | one turn of the transmission loop: skip, transmit, or put back and drop the connection |
| `ReliableSender.Connection.Response` | `network/src/reliable_sender.rs:220-237` | an acknowledgement answers the oldest unanswered message; anything else drops the connection |

## Left out

- Commits.NoDoubleCommit: a sufficient condition on deliveries; the exact one is `Commits.NoDoubleCommitExactly`.
- Agreement.OwnHistoryRun: a sufficient condition for intact memory that the certificate layer does not enforce; the exact one is `Agreement.RunDeterminedExactly`.
- Anchors.AnchorWalkAgreesOnLeaders: speaks of the walk over the anchors (`walkStep == 2`), not of the walk as written, for which it is false; `Peaks.CodeWalkAgreesExactly` has the exact condition for the latter.
- Anchors.AnchorWalkTotalOrder: speaks of `walkStep == 2`; for the walk as written see `Peaks.CodeWalkOrder`.
- EndToEnd.TotalOrder: speaks of `walkStep == 2`; for the walk as written see `EndToEnd.CodeOrder`.
- CoreNode.Core.TakeTurn: a missing payload and a missing parent are handed to one set of waiting headers.
- Ordered sets and maps of a header: parents and payload are sequences without repetition, in any order; the program orders them by the bytes of the digests. The search order of `SearchOrder` refers to the order in which a header lists its parents.
- Integer widths: stakes and rounds are unbounded. The 64-bit wrap-around of the fallback index is modelled; `round - 1` for a certificate of round 0 is taken to wrap to an odd number, as in a release build.
- Votes and payload of certificates inside the commit engine, which never reads them.
- The leader seed of test builds; the production seed, which is the round, is modelled.
- Ed25519, SHA-512, serialization and storage failures: signatures and digests are ideal, the store is a map.
- Header, batch and certificate digests share one key space in the store; here they are told apart by type.
- Tokio tasks, channels, timers and TCP: a step at a time, with timers and failures as nondeterministic inputs; retry delays are not modelled.
- The internals of the header waiter, the certificate waiter, the helper and the garbage collector: an environment that may hand back what was suspended.
- Cancel handlers of the core and the proposer, and the messages that pause batch production in the workers.
- Liveness: that headers are eventually certified or leaders eventually committed.
- The worker crate, the benchmark harness, configuration files, logging and the node binary.
