# PSR: replication, election and storage allocation, verified

PSR keeps the state of applications available across nodes. Its core replicates a log with a variant
of Viewstamped Replication Revisited in which only quorum-connected nodes are elected (section 4.1
"Normal Operation", 4.2 "View Changes" and 5.2 "State Transfer" of that paper are the parts it
follows). A storage allocator on top of it pairs every application with a storage on another node.
This project models both and proves what they promise. `dafny verify dfyconfig.toml` checks it all.

## Layout

| files | what |
|---|---|
| `LogModel`, `ReplicatedLogClass`, `LogTheory` | the log of one node: functions, the class with its loops, and what the operations keep over runs |
| `Quorum`, `Membership`, `GmmClass`, `Connections` | majorities, the membership table, the class with its scans in any iteration order, and the connection bits over runs of gossip |
| `Replication`, `LrClass`, `HandlerTheory`, `RequestProgress`, `RequestCompletion` | the replication handlers, the class, when exactly they answer, when exactly a request is completed, and what clients are told over runs |
| `SyncReassembly` | putting a synchronised log together |
| `Cluster`, `ClusterSafety`, `ClusterDelivery` | all nodes with one leader in one view: agreement, durability, and ordered delivery |
| `Election`, `LeClass`, `ElectionRounds`, `ElectionSafety`, `ElectionHypotheses`, `LeaderRole` | the election: what exactly a round does, at most one winner for each view, why its hypotheses are needed, and the role callbacks |
| `NodeCycle`, `CcmClass` | one node's periodic cycle over election and replication |
| `PairRegistry`, `Allocation`, `AllocatorClass`, `AllocatorSafety` | the registry, the decisions, the classes, and all nodes' allocators together |

A class and the functions of the same step belong together: the class has the source's fields and
loops and is proved to change its state as the function says; the lemmas are about the functions, and
state machines over them give the statements about runs.

## The settings of the results over runs

- **Cluster.** One leader in one view, logs empty at the start. A message once sent may be delivered
  any number of times, in any order, to anyone (also to members it was not addressed to), or never; a
  sync may mix messages of different snapshots and different senders; upcalls, gossip and syncs happen
  at any time. A leader proposes whenever it holds no request, whether or not it has the latest
  entries. These are more runs than the code has. A heartbeat may not move the leader out of its view.
  Agreement, durability and equal payloads need nothing more; that upcalls come in order also needs
  that each finished sync brings a committed prefix and meets the merge condition (`r <= n` or `c = n`).
- **Election.** Every node starts as a follower; a message sent is received by any other member any
  number of times, in any order, or never; gossip may change everything in a table except vote counts
  and membership and may not lower the own view. Three hypotheses: a node counts no vote twice in one
  voting period; the view it adopts from an available leader (`src/ccm/le/Electing.cpp:14`) is not below
  one it has voted in; heartbeats do not move its view while it is electing and has counted a vote.
  These ask for less than single delivery, adopting no lower view, and no heartbeat raising the view of a
  node that is electing. Each is exact for what a step keeps (`CountsOnceExactly`, `AdoptionExactly`,
  `ViewMoveExactly`), and for each `ElectionHypotheses` builds a run that gives up only that one and elects two nodes in one view: with
  nothing but the members' own heartbeats for the first, with gossip of the kind just described for the
  other two.
- **Connections.** Nobody hears its own heartbeat.
- **Node cycle.** Any mixture of cycles, changes by the failure detector that keep the own leader mark
  and the membership, and log syncs whose merge keeps the committed prefix (`r <= n` or `c = n`).
- **Allocator.** Every node decides from its own copy of the registry, behind by any amount; requests
  are lost or committed in any order; applications and storages change freely. Capacity assumes in
  addition that no addition is on its way (queued anywhere, in flight, or committed and not yet applied
  at the deciding node) when a pairing is decided, and that a storage id keeps its node. Removals may
  be on their way.

## Where the code differs from its words

- `src/ccm/le/Electing.cpp:52` says a vote is counted even if it has just restarted the period. The
  test uses the view read before the restart, so it is not. The model follows the code.
- The follower's reaction to election messages (`src/ccm/le/Follower.cpp:12-36`) depends on a view
  number recorded on reception that nothing records, so it is always 0 and the reaction never happens.
  The branch is in the class; `FollowersIgnoreMessages` shows it is never taken.
- The change callback names its flag `isRemoved` and passes true for an addition
  (`src/psrm/sspr/SSPR.cpp:193`, `:215`).
- A Prepare of number 1 that meets a committed first entry of a lower view is acknowledged without
  being stored (`AcknowledgedIsHeldExactly`).
- A repeated Prepare above number 1 is never acknowledged a second time; it triggers a sync
  (`PrepareAnsweredExactly`).
- A request that is held when the node leaves the leader role blocks all later ones
  (`AcceptsAgainExactly`).
- A request accepted in view 0 is never completed, since an answer for view 0 counts as none
  (`RequestCompletesExactly`).
- When no member names itself leader, whoever the last member in iteration order names is reported, although
  another member may name someone else (`LeaderReportedExactly`).
- The search for the least-used storage knows the registry of pairs, not the storages registered now, so it may
  find one that is gone and hide one with room (`UnregisteredHidesRoom`).
- A storage registered with the reserved id 0 makes its own proposal a removal (`OnePairPerDecision`).
- A successful search for an unused storage posts all of them, not one; only the first can take effect.

## Model

| member | source | states |
|---|---|---|
| ClusterSafety.Agreement | src/ccm/lr/LR.cpp:238-269 | in every run with one leader in one view, with loss, repetition, reordering, gossiped commits and log syncs: entries with the same number at any two nodes and any two moments have the same view and payload |
| ClusterSafety.LogsFollowProposals | src/ccm/lr/LR.cpp:85-113 | in those runs every log is at every moment a prefix of what the leader has proposed |
| ClusterSafety.Durability | src/ccm/lr/LR.cpp:182-193 | once any node marks an entry committed, by a Commit, by gossip or by a copied flag, n/2+1 members hold that very entry, then and ever after |
| ClusterSafety.StepKeepsInv | src/ccm/lr/LR.cpp:300-304 | every step of the cluster keeps the invariant behind both (commit flags, gossiped numbers and Commits are all backed by a quorum), shortens no log and forgets no proposal |
| ClusterSafety.AfterPrepareOk | src/ccm/lr/LR.cpp:182-193 | a Commit is sent only for a number a quorum holds, also when the PrepareOK that triggers it is a late one of an earlier number |
| ClusterSafety.AnsweredIsDurable | src/ccm/lr/LR.cpp:182-193 | once the leader has answered a client Committed, n/2+1 members hold that client's message under its number, then and ever after, marked committed or not |
| ClusterSafety.UpcallsAgree | src/ccm/lr/ReplicatedLog.cpp:138-163 | the upcalls for one number, at any two nodes and moments of any run, carry the same payload |
| ClusterDelivery.TraceFollowsProposals | src/ccm/lr/ReplicatedLog.cpp:138-163 | in runs whose finished syncs meet the merge condition every node's upcalls are the leader's proposals, in order, as far as they go |
| ClusterDelivery.TracesComparable | src/ccm/lr/ReplicatedLog.cpp:138-163 | in those runs, of any two nodes' upcalls at any two moments one sequence is a prefix of the other |
| ElectionSafety.ElectionSafety | src/ccm/le/Electing.cpp:102-131 | two nodes that move from Electing to Leader in the same view, at whatever moments of a run, are one node |
| ElectionSafety.OneVotePerViewInRun | src/ccm/le/Electing.cpp:166-181 | no node ever sends two votes of one view |
| ElectionSafety.VoteCountMeaning | src/ccm/le/Electing.cpp:36-66 | while a node is electing, its counter for a member is the number of votes for that member, of the current view, counted since the period began, plus its own vote if it voted for itself in that view |
| ElectionSafety.WinnerHasVoters | src/ccm/gmm/GMM.cpp:492-509 | the votes a winner counted came from n/2+1 distinct members |
| ElectionSafety.StepKeepsInv | src/ccm/le/Electing.cpp:10-33 | every step of every node keeps the invariant: votes sent have ascending views, counters mean what they should, wins have their quorum |
| ElectionSafety.FreshPeriod | src/ccm/le/Electing.cpp:213-222 | a restarted period and the way from Follower to Electing raise the view and leave every counter at zero |
| ElectionSafety.FollowersIgnoreMessages | src/ccm/le/Follower.cpp:12-42 | in every run a follower that receives an election message clears its counters and does nothing else |
| ElectionSafety.CountsOnceExactly | src/ccm/le/Electing.cpp:36-66 | counting a vote keeps the counters equal to the votes counted exactly when that vote has not been counted in the period yet |
| ElectionSafety.AdoptionExactly | src/ccm/le/Electing.cpp:10-16 | adopting the view of an available leader keeps the votes sent within the own view exactly when that view is not below one voted in |
| ElectionSafety.ViewMoveExactly | src/ccm/fd/FD.cpp:141-158 | gossip keeps the counters of an electing node meaning what they should exactly when it leaves the view alone or nothing has been counted |
| ElectionSafety.HeartbeatAllowedExactly | src/ccm/fd/FD.cpp:141-172 | a heartbeat meets the third hypothesis exactly unless it comes from the reported leader with a higher view while the node is electing and has counted a vote |
| ElectionHypotheses.RepeatedVotesElectTwo | src/ccm/le/Electing.cpp:54-66 | a run of freshly started members, gossip being nothing but their heartbeats, that gives up only the first hypothesis (one vote is counted twice) and has two winners of view 1 |
| ElectionHypotheses.LowerViewElectsTwo | src/ccm/le/Electing.cpp:10-18 | from every start in which three members see each other in a given way, a run that gives up only the second hypothesis and has two winners of view 1 |
| ElectionHypotheses.DividedReady | src/ccm/gmm/GMM.cpp:618-629 | there is such a start |
| ElectionHypotheses.DividedIsInit | src/ccm/le/LE.cpp:46-53 | and the start is one of the election runs |
| ElectionHypotheses.MovedViewsElectTwo | src/ccm/fd/FD.cpp:141-158 | a run of freshly started members that gives up only the third hypothesis and has two winners of view 2 |
| LeaderRole.RolesBracketed | src/ccm/le/Leader.cpp:44-70 | over every run Entered and Left alternate starting with Entered, and the node marks itself leader exactly in between |
| LeaderRole.LeaderHasEntered | src/ccm/le/LE.cpp:60-101 | whenever the election hands back control in state Leader, Entered has been called and Left has not, and the node marks itself leader |
| LeaderRole.StartIsInOrder | src/ccm/le/LE.cpp:46-53 | a node as constructed satisfies what RolesBracketed starts from |
| NodeCycle.FreshIsInOrder | src/ccm/CCM.cpp:64-69 | a node as constructed satisfies what NodeRunSafety starts from |
| NodeCycle.CycleDeliversAll | src/ccm/CCM.cpp:206-227 | whatever a cycle finds waiting, it ends with the callback called for exactly the committed entries, in order and once each |
| NodeCycle.CycleKeepsRole | src/ccm/CCM.cpp:170-227 | a cycle accepts a client request only in the leader role, with the own leader mark set, no other request held, and no member known to be ahead |
| NodeCycle.NodeRunSafety | src/ccm/CCM.cpp:206-227 | both hold after every run of cycles, heartbeats and guarded syncs in any order |
| RequestCompletion.RequestsAnsweredOnce | src/ccm/lr/LR.cpp:85-143 | over every run of a node each accepted request is answered at most once, and answered Committed only after n/2+1 distinct members sent PrepareOK for its view and number |
| RequestCompletion.AcceptsAgainExactly | src/ccm/lr/LR.cpp:137-143 | after leaving the leader role the node can ever accept a request again exactly when it held none at that moment |
| RequestCompletion.BlockedForever | src/ccm/lr/LR.cpp:137-143 | a node deposed while holding a request accepts no other, whatever happens next |
| RequestProgress.CompletesExactly | src/ccm/lr/LR.cpp:195-235 | whatever messages a leader with a pending request gets, in any order and however often: the request is completed (slot and id free, Commit sent, a waiting client told Committed once) exactly when n/2+1 distinct members have answered it, and until then nobody is told anything |
| RequestProgress.RequestCompletesExactly | src/ccm/lr/LR.cpp:85-113 | from acceptance on, the client is told Committed exactly when n/2+1 distinct members answer the request's view and number; a request accepted in view 0 is never completed |
| RequestProgress.AnswerActsExactly | src/ccm/lr/LR.cpp:182-193 | a valid answer to what is pending at its sender marks it, and completes the request exactly when n/2+1 members are then marked; otherwise it does nothing else |
| RequestProgress.AcceptedIsPending | src/ccm/lr/LR.cpp:85-113 | an accepted request is pending at every member under the next number in the own view, unanswered, its Prepare sent, its callback waiting |
| RequestProgress.LeavingAborts | src/ccm/lr/LR.cpp:137-143 | leaving the role answers a waiting request Aborted, once, with its own token and id; nothing is pending any more and the request keeps its slot |
| RequestProgress.EnteringClears | src/ccm/lr/LR.cpp:129-135 | entering the role forgets what was pending and changes nothing else |
| ElectionRounds.ElectingVotesOnce | src/ccm/le/Electing.cpp:10-33 | an electing node without a message announces on entry, votes for the lowest member that reaches a quorum unless it has voted, counts that vote exactly when it is for itself, and does nothing else |
| ElectionRounds.ElectingRound | src/ccm/le/Electing.cpp:10-33 | a message is handled after that; then, if the period is over and the node still elects, a new period starts one above every view it knows |
| ElectionRounds.ElectingEnds | src/ccm/le/Electing.cpp:10-33 | it follows an available leader into its view, and becomes a follower when nobody reaches a quorum |
| ElectionRounds.VotesForLowest | src/ccm/le/Electing.cpp:166-181 | a node that has not voted votes for the lowest member that reaches a quorum |
| ElectionRounds.DoesNotVote | src/ccm/le/Electing.cpp:166-181 | it does not vote when it has, or when nobody reaches a quorum |
| ElectionRounds.AnnouncesOnEntry | src/ccm/le/Electing.cpp:133-144 | entering the state it announces the election in its view, before it votes |
| ElectionRounds.HigherViewStartsOver | src/ccm/le/Electing.cpp:36-82 | a vote or an announced election of a higher view starts a new period in that view: no votes, start announced, vote free, and the vote received not counted |
| ElectionRounds.CurrentVoteCounts | src/ccm/le/Electing.cpp:36-66 | a vote of the own view counts one for its candidate and brings its sender's number; the node wins exactly when its own count is then at least n/2+1 |
| ElectionRounds.LowerViewIgnored | src/ccm/le/Electing.cpp:36-82 | votes of lower views and announcements of views not higher change nothing |
| ElectionRounds.CompletedEnds | src/ccm/le/Electing.cpp:84-100 | a completed election ends the own one exactly when its view is not lower |
| ElectionRounds.FollowerElectsExactly | src/ccm/le/Follower.cpp:49-72 | a follower without a message starts an election exactly when no leader is reported, its patience is over and some member reaches a quorum: one above every view known, with no votes |
| ElectionRounds.FollowerHearsExactly | src/ccm/le/Follower.cpp:12-42 | with a message it does so exactly when a view was noted at the message's arrival and the message's is higher: in that view, with no votes but the one brought |
| ElectionRounds.StepsDownExactly | src/ccm/le/Leader.cpp:12-70 | a leader steps down exactly when a message of a higher view has come or its connections and itself are fewer than n/2+1, clearing its mark and making the Left call; entering, it marks itself, announces the completed election and makes the Entered call |
| ElectionRounds.MessagesInOrder | src/ccm/le/LE.cpp:71-92 | queued messages are handled one after the other in the order they came |
| NodeCycle.CycleAcceptsExactly | src/ccm/CCM.cpp:170-227 | a cycle accepts a client request, and sends its Prepare, exactly when it leaves the node in the leader role with a request waiting, none held, and no member known to be ahead |
| NodeCycle.TakesExactly | src/ccm/CCM.cpp:170-199 | a waiting request is taken exactly then, under the next number in the own view; otherwise nothing changes |
| NodeCycle.LeaderCycleCompletes | src/ccm/CCM.cpp:206-227 | a leader's cycle completes the pending request exactly when n/2+1 members have answered by its end |
| NodeCycle.LeavingCycleAborts | src/ccm/CCM.cpp:136-148 | a request waiting when the node leaves the role is answered Aborted in that cycle, with its own token and id |
| NodeCycle.NotifyActs | src/ccm/CCM.cpp:125-148 | however many role changes a cycle makes, a waiting request is answered Aborted once if one of them is leaving, and otherwise nobody is told anything |
| NodeCycle.FollowerCycle | src/ccm/lr/LR.cpp:115-122 | a follower's cycle handles every message, moves the commit point to the largest any member has told of, as far as the log reaches, and publishes it |
| NodeCycle.InOrder | src/ccm/lr/LR.cpp:195-235 | replication messages are handled one after the other in the order they came |
| LogTheory.RunKeepsShape | src/ccm/lr/ReplicatedLog.cpp:9-136 | over every run with guarded merges the numbers are 1..n, the committed entries a prefix, and the commit point never moves back |
| LogTheory.RunExtends | src/ccm/lr/ReplicatedLog.cpp:269-320 | append-only: entries from number 2 on and committed entries never change, and an uncommitted first entry is replaced only by one of a higher view |
| LogTheory.StepViewsExactly | src/ccm/lr/LogEntry.cpp:182-193 | an operation keeps views non-decreasing exactly under a condition the caller can check (no first entry replaced beyond the second one's view, no merged tail below the last view) |
| LogTheory.RunKeepsViews | src/ccm/lr/ReplicatedLog.cpp:69-100 | views are non-decreasing after every run that meets that condition |
| LogTheory.PrepareOutcome | src/ccm/lr/ReplicatedLog.cpp:69-100 | on a log numbered 1..n a Prepare appends entry n+1, replaces an uncommitted first entry of a lower view, or changes nothing; and when it is acknowledged |
| LogTheory.CommitOutcome | src/ccm/lr/ReplicatedLog.cpp:102-136 | a Commit succeeds exactly when the entry is held in that view and is at most the next one, and then moves the commit point to it |
| LogTheory.CommitUpToOutcome | src/ccm/lr/ReplicatedLog.cpp:234-247 | CommittAllEarlierEntries(k) moves the commit point from c to max(c, min(k, n)) |
| LogTheory.PrefixMeaning | src/ccm/lr/ReplicatedLog.cpp:249-267 | the committed entries are those up to the highest committed number exactly when no uncommitted entry precedes a committed one |
| LogTheory.MergeOutcome | src/ccm/lr/ReplicatedLog.cpp:204-232 | a sync merge keeps every local entry, gives numbers 1..max(n, m), and leaves a committed prefix exactly when r <= n or c = n |
| LogTheory.RepairAfterMerge | src/ccm/lr/ReplicatedLog.cpp:234-267 | after any merge CommittAllEarlierEntries(GetHighestCommittedOpNumber()) makes the committed entries a prefix again without moving the highest number |
| LogTheory.RunDelivers | src/ccm/lr/ReplicatedLog.cpp:138-163 | over every run with guarded merges and no forced upcalls the calls are a prefix of the committed entries, in order and once each |
| LogTheory.DeliveryFromEmpty | src/ccm/lr/ReplicatedLog.cpp:138-163 | the same from the empty log, and all committed payloads right after PerformUpcalls |
| LogTheory.MergeThenUpcallsExactly | src/ccm/lr/ReplicatedLog.cpp:204-232 | a merge followed by PerformUpcalls keeps the order of calls exactly when r <= n or c = n |
| LogTheory.UnguardedMergeExample | src/ccm/lr/ReplicatedLog.cpp:204-232 | a merge outside that condition after which upcalls come out of order |
| LogTheory.RunDeliversOnce | src/ccm/lr/ReplicatedLog.cpp:138-163 | with no condition on merges but numbering and no forced upcalls, no entry is delivered twice and only committed ones are |
| LogTheory.UpcallsDeliverOnce | src/ccm/lr/LogEntry.cpp:139-166 | PerformUpcalls then leaves exactly the committed entries marked, merged ones (whose mark is reset on arrival) included |
| SyncReassembly.ReassemblyExact | src/ccm/lr/SyncManager.cpp:140-240 | for any deliveries drawn from one snapshot: completion exactly when the whole snapshot is heard in order, the result being the snapshot; abort exactly when something out of sequence is heard first |
| SyncReassembly.FirstDecidingMessage | src/ccm/lr/SyncManager.cpp:140-240 | for any entry messages, also of several snapshots: the first that is out of sequence or out of its own range aborts, the first that is the last of its own total completes with the messages so far, and while there is neither the receiver waits |
| HandlerTheory.WhoseEntryIsStored | src/ccm/lr/LR.cpp:195-330 | a leader stores only its own Prepare and a follower anybody's, exactly when it is the next entry in a view not below the last entry's and the own |
| HandlerTheory.WhoseCommitCounts | src/ccm/lr/LR.cpp:195-330 | a leader commits only on its own Commit and a follower on anybody's, exactly when it names the next uncommitted entry in its view; a follower discards a PrepareOK |
| HandlerTheory.FollowerPublishes | src/ccm/lr/LR.cpp:115-122 | a follower's cycle starts by publishing the length of its log as its number |
| HandlerTheory.PrepareAnsweredExactly | src/ccm/lr/LR.cpp:238-269 | when exactly a Prepare is acknowledged, what the log then is, and when it triggers a sync; a repeated Prepare above number 1 triggers a sync and is not acknowledged again |
| HandlerTheory.AcknowledgedIsHeldExactly | src/ccm/lr/ReplicatedLog.cpp:269-320 | an acknowledged entry is in the log exactly unless it met a committed first entry of a lower view, which is acknowledged without being stored |
| HandlerTheory.CommitHandledExactly | src/ccm/lr/LR.cpp:271-298 | when exactly a Commit moves the commit point and when it triggers a sync |
| HandlerTheory.FollowerEndExactly | src/ccm/lr/LR.cpp:115-177 | a follower's cycle leaves the commit point at the largest number any member has told of, as far as the log reaches and not below what it was, publishes it, and triggers a sync exactly when the delay is over and some member is ahead of it |
| HandlerTheory.HasLatestMeaning | src/ccm/lr/LR.cpp:151-156 | HasLatestEntries holds exactly when no member has told of a number above the log's last |
| Quorum.QuorumsMeet | src/ccm/gmm/GMM.cpp:456-464 | two member sets of size n/2+1 overlap |
| Membership.MajoritiesMeet | src/ccm/gmm/GMM.cpp:456-509 | the members a PrepareOK majority came from and any other majority overlap |
| Membership.QcMembersMeet | src/ccm/gmm/GMM.cpp:605-629 | two quorum-connected members, bits within the membership and own bit clear, reach a common member |
| Connections.QcMembersMeetInRun | src/ccm/gmm/GMM.cpp:605-629 | over every run of heartbeats and contact checks from fresh tables: two members that are quorum-connected in anybody's tables, at any two moments, reach a common member |
| Connections.StepKeepsInv | src/ccm/gmm/GMM.cpp:114-137 | no heartbeat and no contact check makes a member's bits name a stranger or itself |
| Connections.ContactExactly | src/ccm/gmm/GMM.cpp:114-137 | a contact check leaves the node connected, of the other members a bit can name, to exactly those that are not late, and changes no other bit; a late member's leader id and bits are cleared; nothing else changes |
| Connections.LateLeaderForgotten | src/ccm/gmm/GMM.cpp:114-182 | a late leader that nobody else names is not reported any more |
| Connections.HeartbeatHeard | src/ccm/fd/FD.cpp:141-172 | after a heartbeat the node is connected to the sender, holds what it carries, and is in its view exactly when the sender is the reported leader and its view is higher |
| Connections.HeartbeatTells | src/ccm/fd/FD.cpp:94-172 | what a member publishes in a heartbeat is what its receiver then knows about it |
| Quorum.QuorumConnectedExactly | src/ccm/gmm/GMM.cpp:618-629 | the connection count passes the test exactly when the member reaches a quorum, or carries its own bit and is one short |
| Quorum.OwnBitExample | src/ccm/gmm/GMM.cpp:618-629 | with own bits set, two members of four pass the test and reach nobody in common |
| Membership.LowestQcMeaning | src/ccm/gmm/GMM.cpp:36-55 | for any iteration order a quorum-connected member is found exactly when there is one, and it is the lowest unless id 0 is quorum-connected |
| Membership.AnyQcMeaning | src/ccm/gmm/GMM.cpp:57-68 | the scan answers whether any member is quorum-connected, for any order |
| Membership.LeaderScan | src/ccm/gmm/GMM.cpp:167-182 | when some member claims itself leader, the one reported does |
| Membership.LeaderReportedExactly | src/ccm/gmm/GMM.cpp:167-182 | the first member in iteration order that names itself is reported; when there is none, whoever the last member names |
| Membership.LargestMeaning | src/ccm/gmm/GMM.cpp:424-436 | the scan returns the maximum over all members |
| AllocatorSafety.PlacementSafety | src/psrm/assp/ASSP.cpp:49-146 | in every run of all nodes' allocators each registry entry is filed under its own application, names a non-zero storage, and places it on a node other than the recorded primary node |
| AllocatorSafety.CapacitySafety | src/psrm/assp/ASSP.cpp:80-125 | in every run in which no addition is on its way when a pairing is decided and each storage id keeps one node, no storage ever has more than two applications |
| AllocatorSafety.DecisionHasRoom | src/psrm/assp/ASSP.cpp:97-118 | every storage a decision proposes has fewer than two applications in full, not only from elsewhere |
| AllocatorSafety.DecidesNothingExactly | src/psrm/assp/ASSP.cpp:80-141 | with every used storage registered, a decision posts nothing exactly when every storage on another node already has two applications |
| AllocatorSafety.UnregisteredHidesRoom | src/psrm/assp/ASSP.cpp:97-118 | a registry in which the search comes up with a storage no longer registered, and nothing is posted although another has room |
| AllocatorSafety.DecisionProposes | src/psrm/assp/ASSP.cpp:49-125 | each pair posted carries the address and node of its storage and the primary node of its application, which differ |
| AllocatorSafety.StorageRemovalSettles | src/psrm/assp/ASSP.cpp:186-197 | the removals posted for a storage, all committed, take exactly its users out of the registry |
| AllocatorSafety.AppRemovalSettles | src/psrm/assp/ASSP.cpp:148-163 | the removal posted for an application, committed, takes out exactly its entry |
| AllocatorSafety.ElsewhereIsEverywhere | src/psrm/sspr/AppStateStoragePairReg.cpp:85-110 | with one node for each storage the count over different-node entries is the full use count of the chosen storage |
| AllocatorSafety.AddKeepsLimitExactly | src/psrm/sspr/AppStateStoragePairReg.cpp:10-26 | adding an entry keeps the limit exactly when the application already has one or the storage has room |
| AllocatorSafety.QueueKeepsLimitExactly | src/psrm/sspr/SSPR.cpp:152-206 | a queue of pairings, all committed, keeps the limit exactly when for every storage its users and the applications waiting for it are within the limit |
| AllocatorSafety.DecisionKeepsLimitExactly | src/psrm/assp/ASSP.cpp:49-141 | a decision on top of any queue of pairings keeps the limit exactly when its application is provided for or the storage posted first has room counting those waiting for it |
| AllocatorSafety.SettlePairings | src/psrm/sspr/AppStateStoragePairReg.cpp:10-26 | a queue of pairings adds, for every application without an entry, the first one and nothing else |
| AllocatorSafety.UndrainedOverfills | src/psrm/assp/ASSP.cpp:49-78 | a run without draining in which one storage is given three applications |
| AllocatorSafety.OnePairPerDecision | src/psrm/assp/ASSP.cpp:127-141 | a decision of a caught-up leader, with all it posts committed, adds nothing if it posts nothing, and otherwise exactly the first pair posted, if and only if no suitable storage has the reserved id 0 |
| AllocatorSafety.SettledDecision | src/psrm/sspr/SSPR.cpp:136-150 | the same said of the registry alone |
| AllocatorSafety.FirstPairingStays | src/psrm/sspr/AppStateStoragePairReg.cpp:10-26 | of several pairings of one application the first stays and the rest change nothing |
| AllocatorSafety.DrainAllSettles | src/psrm/sspr/SSPR.cpp:152-170 | draining one proposal a call, each committed and applied, gives the registry that the queue describes |
| Allocation.RegistryMeaning | src/psrm/sspr/SSPR.cpp:184-222 | the registry holds a pair exactly when the committed requests hold an addition of it that is the first since the last removal of its application and has no removal after it |
| Allocation.Drain | src/psrm/sspr/SSPR.cpp:152-170 | one call takes a front part of the queue and hands over at most its last proposal; a node that is never leader empties the queue and hands over nothing |
| Allocation.DrainHandlesFirst | src/psrm/sspr/SSPR.cpp:152-170 | the proposal handed over is the one at hand at the first answer that the node is leader |
| PairRegistry.NothingFoundExactly | src/psrm/sspr/AppStateStoragePairReg.cpp:85-110 | the least-used search finds nothing exactly when no storage is used from another node |
| PairRegistry.HistogramMeaning | src/psrm/sspr/AppStateStoragePairReg.cpp:85-110 | the histogram counts, for every storage used from another node, exactly the entries that do so |
| ReplicatedLogClass.ReplicatedLog.GetEntryWithOpNumber | src/ccm/lr/ReplicatedLog.cpp:322-336 | the loop finds the first entry with the number, or the end |
| ReplicatedLogClass.ReplicatedLog.ArePreviousEntriesInLog | src/ccm/lr/ReplicatedLog.cpp:9-29 | refines the predicate PrepareOutcome characterises |
| ReplicatedLogClass.ReplicatedLog.IsEntryAlreadyExisting | src/ccm/lr/ReplicatedLog.cpp:31-42 | whether the first entry with the number has the view |
| ReplicatedLogClass.ReplicatedLog.ArePreviousEntriesCommitted | src/ccm/lr/ReplicatedLog.cpp:44-67 | the loop computes what PreviousCommittedMeaning says: no uncommitted entry before the number |
| ReplicatedLogClass.ReplicatedLog.AddOrOverwriteDependingOnView | src/ccm/lr/ReplicatedLog.cpp:269-320 | new log and answer as AddOrOverwrite |
| ReplicatedLogClass.ReplicatedLog.AddEntryToLogIfNotAlreadyIn | src/ccm/lr/ReplicatedLog.cpp:69-100 | is the Prepare operation of the runs above |
| ReplicatedLogClass.ReplicatedLog.CommitEntryIfPresent | src/ccm/lr/ReplicatedLog.cpp:102-136 | is the Commit operation of the runs above |
| ReplicatedLogClass.ReplicatedLog.PerformUpcalls | src/ccm/lr/ReplicatedLog.cpp:138-163 | the loop makes exactly the due calls in log order and marks exactly those entries |
| ReplicatedLogClass.ReplicatedLog.GetLatestEntryOpNumber | src/ccm/lr/ReplicatedLog.cpp:165-175 | the last entry's number, 0 for the empty log |
| ReplicatedLogClass.ReplicatedLog.GetLogEntriesAsSyncMsgVector | src/ccm/lr/ReplicatedLog.cpp:178-202 | one message for each entry, in order, each with the total |
| ReplicatedLogClass.ReplicatedLog.PopulateFromVector | src/ccm/lr/ReplicatedLog.cpp:204-232 | is the merge operation of the runs above |
| ReplicatedLogClass.ReplicatedLog.CommittAllEarlierEntries | src/ccm/lr/ReplicatedLog.cpp:234-247 | is the commit-up-to operation of the runs above |
| ReplicatedLogClass.ReplicatedLog.GetHighestCommittedOpNumber | src/ccm/lr/ReplicatedLog.cpp:249-267 | the largest number of a committed entry, 0 when there is none |
| LogTheory.PreviousCommittedMeaning | src/ccm/lr/ReplicatedLog.cpp:44-67 | the scan answers whether all lower-numbered entries are committed |
| LogTheory.MergeAppends | src/ccm/lr/ReplicatedLog.cpp:204-232 | merging appends exactly the batch's entries beyond the local log, upcall marks cleared |
| GmmClass.GMM.ResetLeaderVoteCount | src/ccm/gmm/GMM.cpp:218-225 | clears every member's counter and nothing else |
| GmmClass.GMM.AddLeaderVote | src/ccm/gmm/GMM.cpp:227-240 | counts one vote for the member, strangers ignored |
| GmmClass.GMM.SetMyViewNumber | src/ccm/gmm/GMM.cpp:272-284 | changes the own view only |
| GmmClass.GMM.SetOpNumber | src/ccm/gmm/GMM.cpp:302-315 | changes that member's number only |
| GmmClass.GMM.SetMyOpNumber | src/ccm/gmm/GMM.cpp:334-346 | changes the own number only |
| GmmClass.GMM.SetMyCommittedOpNumber | src/ccm/gmm/GMM.cpp:393-406 | changes the own committed number only |
| GmmClass.GMM.SetMySelfToLeader | src/ccm/gmm/GMM.cpp:139-151 | sets the own leader mark only |
| GmmClass.GMM.RemoveMySelfAsLeader | src/ccm/gmm/GMM.cpp:153-165 | clears the own leader mark only |
| GmmClass.GMM.SetPendingPrepare | src/ccm/gmm/GMM.cpp:447-454 | every member becomes pending for the request, unanswered |
| GmmClass.GMM.ClearPendingPrepare | src/ccm/gmm/GMM.cpp:438-445 | nothing is pending at any member |
| GmmClass.GMM.SetPrepareOkRcvdIfMatchPending | src/ccm/gmm/GMM.cpp:466-478 | marks the member exactly when view and number are valid and match what is pending |
| GmmClass.GMM.GetValidPrepareOkCnt | src/ccm/gmm/GMM.cpp:605-616 | the number of distinct members marked |
| GmmClass.GMM.IsAMajorityOfValidPrepareOkRcvd | src/ccm/gmm/GMM.cpp:456-464 | whether n/2+1 members are marked |
| GmmClass.GMM.IsVoteCntForMySelfLargerThanMajority | src/ccm/gmm/GMM.cpp:492-509 | whether the own counter has reached n/2+1 |
| GmmClass.GMM.IsQuorumConnected | src/ccm/gmm/GMM.cpp:618-629 | whether connections plus itself reach n/2+1 |
| GmmClass.GMM.IsAnyMemberQuorumConnected | src/ccm/gmm/GMM.cpp:57-68 | whether any member is quorum-connected |
| GmmClass.GMM.GetLowestQuorumConnectedId | src/ccm/gmm/GMM.cpp:36-55 | found exactly when one exists, and the lowest unless id 0 is one |
| GmmClass.GMM.GetLeaderId | src/ccm/gmm/GMM.cpp:167-182 | the scan that LeaderReportedExactly characterises |
| GmmClass.GMM.GetLargestViewNumber | src/ccm/gmm/GMM.cpp:481-490 | an upper bound of all views that some member has |
| GmmClass.GMM.GetHighestCommittedOpNumber | src/ccm/gmm/GMM.cpp:424-436 | an upper bound of all committed numbers that some member has |
| GmmClass.GMM.UpdateConnectionStatusForMySelf | src/ccm/gmm/GMM.cpp:114-137 | the members not heard for too long are disconnected and what they said is dropped; the others are connected; nothing else changes |
| GmmClass.GMM.GetLargestOpNumberGossipedAndMySelf | src/ccm/gmm/GMM.cpp:511-525 | an upper bound of all numbers that some member has |
| GmmClass.GMM.Populate | src/ccm/fd/FD.cpp:94-116 | the heartbeat carries the own row and the leader reported |
| GmmClass.GMM.HandleHeartbeat | src/ccm/fd/FD.cpp:141-172 | the sender's row is overwritten, the sender connected, and the own view raised only to a reported leader's higher one |
| LrClass.LR.ReplicateRequest | src/ccm/lr/LR.cpp:85-113 | refuses while a request is held; else numbers it, makes it pending everywhere and sends it |
| LrClass.LR.HandlePrepare | src/ccm/lr/LR.cpp:238-269 | is the Prepare step of the cluster runs |
| LrClass.LR.HandleCommit | src/ccm/lr/LR.cpp:271-298 | is the Commit step of the cluster runs |
| LrClass.LR.HandlePrepareOk | src/ccm/lr/LR.cpp:182-193 | is the PrepareOK step of the cluster runs |
| LrClass.LR.HandleMsgAsLeader | src/ccm/lr/LR.cpp:195-235 | handles the whole queue in order, Prepare and Commit only from itself |
| LrClass.LR.HandleMsgAsFollower | src/ccm/lr/LR.cpp:307-330 | handles the whole queue in order, PrepareOK discarded |
| LrClass.LR.CheckAndHandleUncommitted | src/ccm/lr/LR.cpp:300-304 | commits up to the largest gossiped committed number |
| LrClass.LR.CheckIfSyncShouldBeTriggeredAndTriggerIfNeeded | src/ccm/lr/LR.cpp:158-177 | raises the sync flag exactly when behind for more than 10 seconds, and notes the time exactly when not behind |
| LrClass.LR.HandleActivityAsFollower | src/ccm/lr/LR.cpp:115-122 | the follower's cycle in its order |
| LrClass.LR.BecameLeaderActivity | src/ccm/lr/LR.cpp:129-135 | clears what is pending and nothing else |
| LrClass.LR.NoLongerLeaderActivity | src/ccm/lr/LR.cpp:137-143 | clears what is pending, answers Aborted once, keeps the request held |
| LrClass.LR.CallReqDoneCallback | src/ccm/lr/LR.cpp:345-356 | calls the callback once when there is one |
| LrClass.LR.HasLatest | src/ccm/lr/LR.cpp:151-156 | the test HasLatestMeaning characterises |
| SyncReassembly.SyncManager.ServeIncomingSyncRequests | src/ccm/lr/SyncManager.cpp:84-96 | answers with the whole log as it is |
| SyncReassembly.SyncManager.HandleIncomingSyncMsg | src/ccm/lr/SyncManager.cpp:140-185 | never both completes and aborts; progress as in ReassemblyExact |
| SyncReassembly.SyncManager.WaitForAndProcessIncomingLogEntries | src/ccm/lr/SyncManager.cpp:187-240 | merges the collected entries exactly on completion and leaves the log alone otherwise |
| LeClass.LE.Vote | src/ccm/le/Electing.cpp:166-181 | votes for the lowest quorum-connected member, once a period, counting a vote for itself |
| LeClass.LE.RestartElectionPeriod | src/ccm/le/Electing.cpp:213-222 | counters cleared, view set, start announced, vote free again |
| LeClass.LE.RestartElectionPeriodIfTmo | src/ccm/le/Electing.cpp:200-211 | restarts one above the largest view known when the period is over |
| LeClass.LE.HandleVote | src/ccm/le/Electing.cpp:36-66 | a vote of the current view is counted; one of a higher view restarts the period and is not |
| LeClass.LE.CheckMessageTypeAndActAccordingly | src/ccm/le/Electing.cpp:102-131 | the step each message makes in the election runs |
| LeClass.LE.PerformFirstTimeInStateActionsIfNeeded | src/ccm/le/Electing.cpp:133-144 | announces and votes once on entry |
| LeClass.LE.HandleElecting | src/ccm/le/Electing.cpp:10-33 | the Electing round of the election runs |
| LeClass.LE.HandleFollower | src/ccm/le/Follower.cpp:8-72 | the Follower round of the election runs |
| LeClass.LE.HandleLeader | src/ccm/le/Leader.cpp:12-70 | the Leader round: enter once, leave when outdated or not quorum-connected |
| LeClass.LE.HandleActivityAndChangeStateIfNeeded | src/ccm/le/LE.cpp:60-68 | one round in the current state |
| LeClass.LE.HandleActivity | src/ccm/le/LE.cpp:71-92 | all queued messages, then one round without a message |
| CcmClass.CCM.HandleIncomingClientRequestToLeader | src/ccm/CCM.cpp:170-199 | takes a request only when none is pending and no member is ahead |
| CcmClass.CCM.MakeRoleCallbacks | src/ccm/CCM.cpp:125-148 | passes role changes on to the replication in order |
| CcmClass.CCM.InstanceTask | src/ccm/CCM.cpp:206-227 | election, replication in the resulting role, upcalls: the cycle of NodeRunSafety |
| PairRegistry.AppStateStoragePairReg.AddEntry | src/psrm/sspr/AppStateStoragePairReg.cpp:10-26 | adds exactly when the application has no entry |
| PairRegistry.AppStateStoragePairReg.RemoveEntry | src/psrm/sspr/AppStateStoragePairReg.cpp:28-41 | removes that application's entry and nothing else |
| PairRegistry.AppStateStoragePairReg.GetEntry | src/psrm/sspr/AppStateStoragePairReg.cpp:43-55 | the entry if there is one |
| PairRegistry.AppStateStoragePairReg.FindLowestUsedStateStorageOnDifferentNode | src/psrm/sspr/AppStateStoragePairReg.cpp:85-110 | for any iteration order: a storage with the least number of entries using it from another node, that number, and nothing only when there is none within range |
| PairRegistry.AppStateStoragePairReg.GetAllAppIdThatUseThisStorageId | src/psrm/sspr/AppStateStoragePairReg.cpp:112-123 | exactly the users of the storage, each once |
| AllocatorClass.SSPR.PostStoragePairForReplication | src/psrm/sspr/SSPR.cpp:62-75 | appends to the queue |
| AllocatorClass.SSPR.GetStoragePairEntryFromQueue | src/psrm/sspr/SSPR.cpp:172-182 | takes the front of the queue |
| AllocatorClass.SSPR.HandleIncomingPairingRequest | src/psrm/sspr/SSPR.cpp:136-150 | a pairing becomes an addition, anything else a removal |
| AllocatorClass.SSPR.ProcessIncomingParingRequestIfLeaderFlushOtherwise | src/psrm/sspr/SSPR.cpp:152-170 | handles one proposal as leader, drops proposals as long as it is not |
| AllocatorClass.SSPR.HandleUpcallMessage | src/psrm/sspr/SSPR.cpp:184-239 | the registry step, with a callback exactly when something was added or a removal arrived; the callbacks replay to the registry |
| AllocatorClass.ASSP.PairWithUnUsedIfItExist | src/psrm/assp/ASSP.cpp:49-78 | posts exactly one pair for every unused storage on another node |
| AllocatorClass.ASSP.PairWithUsed | src/psrm/assp/ASSP.cpp:80-125 | posts the least-used storage elsewhere if its count is below 2 and it is known and elsewhere |
| AllocatorClass.ASSP.PairAppWithStorageIfPossible | src/psrm/assp/ASSP.cpp:127-141 | a decision as in the allocator runs; true exactly when something was posted |
| AllocatorClass.ASSP.CheckForUnPairedAppAndTryToPair | src/psrm/assp/ASSP.cpp:32-47 | decides for one unpaired application, or for none when none can be paired |
| AllocatorClass.ASSP.RemoveAppStoragePair | src/psrm/assp/ASSP.cpp:143-146 | posts a removal |
| AllocatorClass.ASSP.ApplicationRemoved | src/psrm/assp/ASSP.cpp:148-163 | posts a removal exactly when the application is paired |
| AllocatorClass.ASSP.ApplicationAdded | src/psrm/assp/ASSP.cpp:165-184 | decides exactly when the application is not paired |
| AllocatorClass.ASSP.StorageRemoved | src/psrm/assp/ASSP.cpp:186-197 | posts one removal for each user of the storage |
| AllocatorClass.ASSP.IsStorageOnDifferentNode | src/psrm/assp/ASSP.cpp:203-214 | known application and different nodes |

## Left out

- Agreement across views and liveness: entries above number 1 are never rewritten, and an aborted request blocks the node, so the code does not reconcile logs of different views.
- ElectionSafety.ElectionSafety: holds under the three hypotheses above; `RepeatedVotesElectTwo`, `LowerViewElectsTwo` and `MovedViewsElectTwo` are runs with two winners that each give up one.
- AllocatorSafety.CapacitySafety: holds when decisions wait for additions to drain; `UndrainedOverfills` is a run that breaks it otherwise, and `DecisionKeepsLimitExactly` says when a decision that does not wait keeps the limit.
- AllocatorSafety.PlacementSafety: speaks of the primary node recorded when the pair was proposed; the application may have moved since.
- AllocatorSafety.DecidesNothingExactly: asks that every used storage is registered; without it the equivalence fails (`UnregisteredHidesRoom`).
- ElectionRounds.VotesForLowest: asks that member 0 does not reach a quorum, for the same reason as `LowestQcMeaning` below.
- Membership.LowestQcMeaning: says nothing about "lowest" when member 0 is quorum-connected, because the scan uses 0 for "none yet".
- PairRegistry.AppStateStoragePairReg.FindLowestUsedStateStorageOnDifferentNode: a count of 0xFFFFFFFF or more reads as nothing found, as in the source; counters themselves are unbounded here.
- CcmClass.CCM.MakeRoleCallbacks: leaves out the leader's IP address and the flush of the client queue; the calls are made after the election part of the cycle instead of from within it; they change only what is pending and the request callback, which the election neither reads nor writes.
- NodeCycle.NodeRunSafety: heartbeats and syncs come between cycles; the source lets other threads in between the locked methods of one cycle too.
- GmmClass.GMM.Populate: leaves out the source address and the outbound mark, which only the transport reads.
- GmmClass.GMM.HandleHeartbeat: does not record when the heartbeat came; whether a member is late is an input of `UpdateConnectionStatusForMySelf`.
- LrClass.LR.BecameLeaderActivity: does not model the queue of received messages, so not that it is emptied.
- SyncReassembly.SyncManager.ServeIncomingSyncRequests: leaves out the requester's address; a send that fails midway is a loss of the rest.
- SyncReassembly.SyncManager.WaitForAndProcessIncomingLogEntries: does not model that what is left in the queue is discarded after an abort.
- Wrap-around of 32-bit operation, view and vote numbers, apart from the search above.
- Byte layouts and serialization (the message classes, `LogEntry::Serialize`, `LogEntry::Deserialize`); messages are datatypes.
- Sockets, IP addresses, ARP and the tasks; sending appends to a list and receiving picks from it. A leader whose address is unknown (`LR::SendToLeader`) is a lost message.
- Wall-clock times: each timeout is an input saying whether it has expired; only the sync delay is computed, from times passed in.
- Interleaving inside a step: a step of the cluster is a whole handler or half of a follower's cycle, and a step of the election a whole round of `LE`, although the source takes and releases the member lock several times within each, so that another thread's heartbeat or sync may come in between.
- Mutexes and failing allocation: in the classes a locked method is one step. `src/ccm/fd/FD.cpp:145-157` asks for the leader while holding the member lock; the model does not say whether that returns.
- Choosing whom to ask for a log (`GMM::GetIdOfAliveMemberWithOpNumberEqual`): a sync may come from any member.
- The member id 64: the range check lets it through and the source's bit set would throw; here it is a bit like any other.
- `Member` and `LogEntry` as objects: they are values inside the member map and the vector; the sync flag, once raised, stays raised here, since nothing waits for it to be lowered.
- `AppStateStoragePairReg::FindLowestUsedStateStorage` (no decision uses it), `AFD`, `ASR`, the state keeper and retriever, client sessions and the registries of applications and storages: small wrappers; the allocator takes the two registries' contents as inputs.
