# Verification of the Raft node and the copy-on-write B+tree store

A Dafny 4.11 model of the two stateful cores of this repository, with proofs. `dafny verify dfyconfig.toml`
checks the whole project.

**The Raft node** (`02-raft`). `RaftProtocol` has one function per event-loop handler, from the node before to the node
after; `RaftNodes.RaftNode`, `RaftLog.LogStore` and `KeyValue.StateMachine` are the source's classes, with fields updated in
place and loops, each method proved to do what its function says. `RaftCluster` runs any number of nodes: requests
stay in their sender's outbox and replies in the cluster, so each may be lost, delayed, reordered or delivered again at any
time. Proofs go through a history of each term's leader log, votes and acknowledgements (`RaftHistory`), against which an
invariant of nodes and messages (`RaftInvariant`) is kept by every step. `RaftMeaning` says handler by handler, without the
functions' helpers, who is voted for, what is sent and how cursors and indices move. `RaftSafety`, `RaftStates`, `RaftOrder`,
`RaftRepair` and `RaftCalls` state the results over all runs; `RaftFailover` is a run in which a leader is replaced.

**The B+tree store** (`01-btree`). `LeafNodes` and `InternalNodes` are the page classes over byte buffers with their
offset index, `Stores` the page backend, store, reader guard and write transaction, `Trees` the recursive put and the get
loop. They are proved against functions: page bytes and parsers (`PageFormat`, `FreeListPages`, `HeaderPages`, with every
field's place and byte order in `PageLayout`), the cut points of the splits (`SplitPoints`), path-copying insertion on trees
as values (`TreeInsert`), the lists and the commit (`StoreSpec`, `StorePut`). `StoreProtocol` takes a commit apart into single page writes with readers entering, loading the
root and leaving in between; `StoreSafety`, `StoreReads`, `StoreWindow`, `StoreRuns`, `StoreCrash`, `StoreRecovery` and
`StoreForgets` state the results over all runs, `StoreRestarts` over runs that go on after crashes.

What is assumed of the Raft cluster:

- Nodes do not lose state (they are never restarted); membership is fixed and a node is not among its own peers.
- For each candidate, term and voter at most one vote reply is delivered, because votes are a bare counter. The source sends
  one vote request per peer and term, and an RPC yields at most one response. Everything else may be repeated.
- Terms, indices and counters are unbounded integers. Values in the key/value map are Java ints and wrap.

What is assumed of the store:

- The page size is between 49 bytes (the header) and 43708. The upper bound is exact for 16-bit offsets
  (`SplitPoints.OffsetsFitExactly`); the source asserts only that it is at most 65535, and from 43712 on a grown leaf can
  read a wrong entry through a wrapped offset (`WrappedOffsets.LastEntryMisread`).
- Page ids stay below 2^64: a put starts only with `RoomFor` its pages and their chain pages.
- Page writes reach the backend in program order and each is atomic. A transaction serves one put, as the engine uses it.
- Keys are pushed in increasing order and pages decoded under their own id and type, which the source checks with debug
  assertions.

Where the code falls short of what its documentation says, or of what one would expect:

- A reader that enters and loads the root after a commit's gate saw no readers and before the commit publishes holds pages
  the next commit overwrites. `StoreWindow.IsolationExactly` says that this is the only time: a loaded root stays readable
  for as long as its reader is counted if and only if it was loaded outside that window (or no page ids are left).
  `StoreWindow.IsolationNeedsHypothesis` is a run that breaks isolation inside it.
- The free-list chain is rewritten in place before the header. A crash in between leaves the old tree intact, but the
  store that opens then may list a page twice or reuse a page of its own tree. `StoreRecovery.CrashRecovery` gives, for
  every moment of every run, the exact condition on what has been rewritten under which opening is sound;
  `StoreRecovery.CrashLosesFreeList` is a run that reaches a moment where it is not.
- A reopening forgets chain pages beyond those the list needs; they are never reused (`StorePut.ReopenRecovers`, and
  `StoreForgets.ReopeningForgets` for a run in which it happens).
- While a node leads, `matchIndex < nextIndex` is not kept: a rejection that comes in after a success moves nextIndex back
  (`RaftLateRejection.RejectionAfterSuccess`). It answers an earlier call (`RaftCalls.LateRejectionIsOld`): calls of a term to
  one peer overlap when a callback of an earlier term clears the mark of the one in flight. `RaftRepair.AheadExactly` gives
  the exact condition, and `RaftCalls.AheadInTurn` shows it met when calls do not overlap. Nothing is lost by it: the
  follower is sent entries it has, and every safety result holds all the same.

## Model

| member | source | states |
|---|---|---|
| `RaftSafety.ElectionSafety` | 02-raft/src/main/java/ua/vk/ucu/dads/raft/RaftNode.java:153-202 | In every run at most one node ever leads in a term, whatever timeouts, late vote replies and step-downs interleave. |
| `RaftSafety.LogMatching` | 02-raft/src/main/java/ua/vk/ucu/dads/raft/RaftNode.java:399-418 | Two logs of a run, at whatever nodes and moments, that have equal terms at an index are equal up to it. |
| `RaftSafety.InFlightMatching` | 02-raft/src/main/java/ua/vk/ucu/dads/raft/RaftNode.java:241-256 | An entry in flight with the term a log has at its index matches that log on the previous entry and everything sent up to it, though followers compare terms only. |
| `RaftSafety.RequestsMatch` | 02-raft/src/main/java/ua/vk/ucu/dads/raft/RaftNode.java:241-256 | Two requests in flight with one term at an index carry the same entries wherever both reach up to it, and agree on the entry before. |
| `RaftHistory.LeaderCompleteness` | 02-raft/src/main/java/ua/vk/ucu/dads/raft/RaftNode.java:298-317 | An entry of the leader's own term acknowledged by a majority is in the log of every leader of a later term, from its election on. |
| `RaftSafety.CommittedReachesLeaders` | 02-raft/src/main/java/ua/vk/ucu/dads/raft/RaftNode.java:298-336 | Whatever any node has committed is, in full, in the log of every leader of its term or a higher one from then on. |
| `RaftSafety.CommittedInTerm` | 02-raft/src/main/java/ua/vk/ucu/dads/raft/RaftNode.java:298-336 | A committed entry was, in some term t no later than its observer's, on a majority as part of a log ending in an entry of t; every leader of a term after t, at any earlier or later moment, holds that whole log. |
| `RaftSafety.CommittedAgree` | 02-raft/src/main/java/ua/vk/ucu/dads/raft/RaftNode.java:298-336 | Two nodes agree on every index both have committed, at whatever moments of the run. |
| `RaftSafety.StateMachineSafety` | 02-raft/src/main/java/ua/vk/ucu/dads/raft/RaftNode.java:319-336 | A node's key/value map is the replay of its applied prefix of the log of any node that has applied at least as much. |
| `RaftSafety.CommittedForever` | 02-raft/src/main/java/ua/vk/ucu/dads/raft/RaftNode.java:407-423 | Along a run lastApplied <= commitIndex <= lastIndex, neither index nor the term ever decreases, and committed entries are never truncated or replaced. |
| `RaftSafety.NoExceptions` | 02-raft/src/main/java/ua/vk/ucu/dads/raft/RaftNode.java:234-256 | Every step that can happen in a run is defined: log lookups are in range and applying never runs off the log. |
| `RaftSafety.MatchIndexSound` | 02-raft/src/main/java/ua/vk/ucu/dads/raft/RaftNode.java:272-295 | While a node leads, matchIndex[p] = n > 0 means p, at some earlier moment in this term, held the leader's first n entries; stale replies cannot break it. |
| `RaftSafety.AnswersTruthful` | 02-raft/src/main/java/ua/vk/ucu/dads/raft/RaftNode.java:319-336 | A client answer at index i is for the client's own committed entry i and is the outcome of applying it after entries 1..i-1. |
| `RaftSafety.EveryFutureAccounted` | 02-raft/src/main/java/ua/vk/ucu/dads/raft/RaftNode.java:112-126 | Every future handed out is either answered or waiting, never both, and a waiting one waits at exactly one unapplied entry of a leader's log, which holds its command. |
| `RaftSafety.AnswersUnique` | 02-raft/src/main/java/ua/vk/ucu/dads/raft/RaftNode.java:112-126 | One committed entry answers at most one future in the whole cluster, across step-downs, truncation and re-election. |
| `RaftStates.StateIsCourse` | 02-raft/src/main/java/ua/vk/ucu/dads/statemachine/StateMachine.java:13-32 | At every moment of every run a node has applied all it has committed, and its map is where the commands of its committed entries lead from the empty map, one after another: SET stores the value, ADD and SUBTRACT move the stored value by it modulo 2^32, an absent key changes nothing. |
| `RaftStates.AnswersTell` | 02-raft/src/main/java/ua/vk/ucu/dads/raft/RaftNode.java:319-336 | In every run an answer names the client's key; it tells the key's value right after the client's own committed entry, or that the key was absent before it. |
| `RaftStates.AlwaysRested` | 02-raft/src/main/java/ua/vk/ucu/dads/raft/RaftNode.java:141-222 | At every moment of every run lastApplied is commitIndex, and the election timer is armed exactly on the nodes that do not lead. |
| `RaftStates.ReplayFollows` | 02-raft/src/main/java/ua/vk/ucu/dads/statemachine/StateMachine.java:13-32 | Replaying a log is going from the empty map through each command's effect in turn. |
| `RaftOrder.AnswersInOrder` | 02-raft/src/main/java/ua/vk/ucu/dads/raft/RaftNode.java:112-126 | Answers respect real time: a command submitted at any node after another was answered anywhere is answered, if at all, at a later index. |
| `RaftOrder.SubmissionPlaces` | 02-raft/src/main/java/ua/vk/ucu/dads/raft/RaftNode.java:112-126 | A command handed to a leader is put right behind its log, in its term; handed to any other node it is refused and enters no log. |
| `RaftOrder.StaysPlaced` | 02-raft/src/main/java/ua/vk/ucu/dads/raft/RaftNode.java:319-336 | From submission on a future is refused, or waits or is answered at the index and term of its own entry, through every step of every run. |
| `RaftOrder.RefusedAtSubmission` | 02-raft/src/main/java/ua/vk/ucu/dads/raft/RaftNode.java:112-126 | A future refused when it was submitted left the log alone, stays refused, and never waits for an entry. |
| `RaftProgress.StepProgress` | 02-raft/src/main/java/ua/vk/ucu/dads/raft/RaftNode.java:354-360 | No step takes back a term, a commit or apply index, or an answer: each future is completed at most once. |
| `RaftProgress.LearnCommitLowersExactly` | 02-raft/src/main/java/ua/vk/ucu/dads/raft/RaftNode.java:420-422 | The assignment min(leaderCommit, idx) lowers the commit index exactly when the request ends below it and claims more; a request that covers its claim never does. |
| `RaftReplication.RequestForOk` | 02-raft/src/main/java/ua/vk/ucu/dads/raft/RaftNode.java:241-256 | Every request a leader builds is a slice of its term's log, with the right previous term and a commit index it covers. |
| `RaftReplication.MergeYieldsSenderLog` | 02-raft/src/main/java/ua/vk/ucu/dads/raft/RaftNode.java:407-418 | When equal terms mean equal prefixes, the skip/truncate/append loop leaves the follower's log alone if it has everything sent, and otherwise makes it the sender's prefix. |
| `RaftReplication.CommittedSurvivesMerge` | 02-raft/src/main/java/ua/vk/ucu/dads/raft/RaftNode.java:399-418 | Accepting a request never truncates or replaces what the follower has committed. |
| `RaftReplication.MajorityIsChosen` | 02-raft/src/main/java/ua/vk/ucu/dads/raft/RaftNode.java:306-315 | A majority of matchIndex plus the leader, at an entry of the current term, is a majority of nodes that held the entry in this term. |
| `RaftHistory.GroundedLogsMatch` | 02-raft/src/main/java/ua/vk/ucu/dads/raft/RaftNode.java:411-417 | Logs whose every entry sits where its term's leader put it agree up to any index where their terms agree. |
| `RaftHistory.MajoritiesIntersect` | 02-raft/src/main/java/ua/vk/ucu/dads/config/NodeConfig.java:25-31 | Two sets of clusterSize/2 + 1 nodes share a node. |
| `RaftElections.CountOneOk` | 02-raft/src/main/java/ua/vk/ucu/dads/raft/RaftNode.java:196-197 | Counting one granted reply keeps the bare counter equal to the number of distinct voters, given one delivery per voter and term. |
| `RaftElections.RepeatedReplyOvercounts` | 02-raft/src/main/java/ua/vk/ucu/dads/raft/RaftNode.java:196-200 | The counter needs that: among five nodes one grant delivered twice makes a leader with two voters. |
| `RaftElections.WinningHistory` | 02-raft/src/main/java/ua/vk/ucu/dads/raft/RaftNode.java:196-217 | A candidate whose counter reaches the majority wins a term no one has won, with a quorum of up-to-date voters. |
| `RaftCluster.EveryStepDefined` | 02-raft/src/main/java/ua/vk/ucu/dads/raft/RaftNode.java:234-295 | The invariant of runs puts every handler's log lookups in range, in particular 1 <= nextIndex <= lastIndex + 1. |
| `RaftCluster.StepKeepsInv` | 02-raft/src/main/java/ua/vk/ucu/dads/raft/RaftNode.java:112-425 | Every handler, timeout, heartbeat, delivery and client command keeps the cluster invariant and only extends the history. |
| `RaftCluster.InitialInv` | 02-raft/src/main/java/ua/vk/ucu/dads/raft/RaftNode.java:54-73 | The invariant holds of a cluster of fresh nodes. |
| `RaftMeaning.VoteMeans` | 02-raft/src/main/java/ua/vk/ucu/dads/raft/RaftNode.java:362-377 | A vote is granted if and only if the term is not stale, no other candidate has this node's vote in it, and the candidate's log is not behind: a later last term wins whatever the lengths, and equal last terms compare lengths. |
| `RaftMeaning.UpToDateMeans` | 02-raft/src/main/java/ua/vk/ucu/dads/raft/RaftNode.java:380-387 | A log position is judged up to date if and only if it is not behind in (last term, length). |
| `RaftMeaning.UpToDateIsTotal` | 02-raft/src/main/java/ua/vk/ucu/dads/raft/RaftNode.java:380-387 | Of any two logs one at least is up to date for the other; a later last term always is, and never the other way round. |
| `RaftMeaning.SomeoneIsGranted` | 02-raft/src/main/java/ua/vk/ucu/dads/raft/RaftNode.java:362-387 | Of two nodes that ask each other in new terms one at least gets the other's vote. |
| `RaftMeaning.TimeoutMeans` | 02-raft/src/main/java/ua/vk/ucu/dads/raft/RaftNode.java:149-186 | A timeout starts the next term with one vote for itself and asks exactly the peers, each with the log position of this round; a node without peers leads at once. |
| `RaftMeaning.VoteReplyMeans` | 02-raft/src/main/java/ua/vk/ucu/dads/raft/RaftNode.java:188-202 | A reply deposes, counts or does nothing; the candidate leads exactly when its votes are more than half of the cluster. |
| `RaftMeaning.MajorityIsLeast` | 02-raft/src/main/java/ua/vk/ucu/dads/config/NodeConfig.java:25-31 | The majority is the least number of nodes that is more than half. |
| `RaftMeaning.OfficeMeans` | 02-raft/src/main/java/ua/vk/ucu/dads/raft/RaftNode.java:204-222 | A new leader puts every cursor right behind its log, knows nothing of any peer, and sends each an empty request with its commit index. |
| `RaftMeaning.HeartbeatMeans` | 02-raft/src/main/java/ua/vk/ucu/dads/raft/RaftNode.java:225-256 | A heartbeat sends to exactly the peers with no call in flight, each the entries from its cursor on, the entry before, and the leader's own commit index even when there is nothing to send. |
| `RaftMeaning.SendMeans` | 02-raft/src/main/java/ua/vk/ucu/dads/raft/RaftNode.java:234-256 | Sending to one peer adds exactly that request, unless a call is in flight. |
| `RaftMeaning.SuccessMeans` | 02-raft/src/main/java/ua/vk/ucu/dads/raft/RaftNode.java:281-289 | A success makes matchIndex the greater of what it was and prevIndex + sentCount, and nextIndex one more; a new request goes out if and only if matchIndex is below lastIndex, and starts right behind it. No other peer's cursor moves. |
| `RaftMeaning.FailureMeans` | 02-raft/src/main/java/ua/vk/ucu/dads/raft/RaftNode.java:290-294 | A rejection lowers nextIndex by one, not below 1, and sends the longer request at once. |
| `RaftMeaning.OtherReplyMeans` | 02-raft/src/main/java/ua/vk/ucu/dads/raft/RaftNode.java:274-280 | A reply from another round changes nothing but the call in flight; a later term deposes. |
| `RaftMeaning.AppendMeans` | 02-raft/src/main/java/ua/vk/ucu/dads/raft/RaftNode.java:389-425 | A request succeeds if and only if its term is not stale and the entry before it is there with its term; a success commits up to the lesser of what the leader has committed and the request covers. |
| `RaftMeaning.MergeMeans` | 02-raft/src/main/java/ua/vk/ucu/dads/raft/RaftNode.java:407-418 | Entries present already stay with all that follows them; from the first that is not, the log is what was sent. |
| `RaftMeaning.ResultMeans` | 02-raft/src/main/java/ua/vk/ucu/dads/raft/RaftNode.java:319-334 | Applying an entry answers exactly the client waiting at its index, with the key's value after it or with the absent key. |
| `RaftMeaning.StepDownMeans` | 02-raft/src/main/java/ua/vk/ucu/dads/raft/RaftNode.java:338-360 | Stepping down answers exactly the waiting clients, all with NOT_LEADER, and forgets the vote only in a new term. |
| `RaftMeaning.SubmitMeans` | 02-raft/src/main/java/ua/vk/ucu/dads/raft/RaftNode.java:112-126 | A leader appends the command in its term and sends it at once to every peer with no call in flight. |
| `RaftHandlers.HandleVoteRequestOk` | 02-raft/src/main/java/ua/vk/ucu/dads/raft/RaftNode.java:362-377 | Answering a vote request keeps the node's invariant and records at most one vote per term. |
| `RaftHandlers.HandleAppendOk` | 02-raft/src/main/java/ua/vk/ucu/dads/raft/RaftNode.java:389-425 | Handling AppendEntries keeps the node's invariant and a success reply acknowledges entries the follower then holds. |
| `RaftHandlers.OnAppendReplyOk` | 02-raft/src/main/java/ua/vk/ucu/dads/raft/RaftNode.java:272-295 | Handling an AppendEntries reply keeps the node's invariant, including what it may commit. |
| `RaftRepair.ScanFindsGreatest` | 02-raft/src/main/java/ua/vk/ucu/dads/raft/RaftNode.java:298-317 | With ascending terms up to the current one, the downward scan with its early break returns exactly the greatest index that is of the current term and on a majority, or leaves the commit index. |
| `RaftRepair.BreakNeedsAscendingTerms` | 02-raft/src/main/java/ua/vk/ucu/dads/raft/RaftNode.java:302-305 | Without ascending terms the early break would miss a committable index. |
| `RaftRepair.SuccessCommitsGreatest` | 02-raft/src/main/java/ua/vk/ucu/dads/raft/RaftNode.java:281-286 | In every run a success reply moves the commit index to the greatest committable index or leaves it. |
| `RaftRepair.SubmissionCommitsGreatest` | 02-raft/src/main/java/ua/vk/ucu/dads/raft/RaftNode.java:112-126 | In every run a command handed to a leader moves the commit index to the greatest committable index or leaves it. |
| `RaftRepair.RejectionStepsBack` | 02-raft/src/main/java/ua/vk/ucu/dads/raft/RaftNode.java:290-293 | A follower in no later term can only reject a request with a previous entry, and the leader's nextIndex then drops by exactly one. |
| `RaftRepair.AcceptanceRepairs` | 02-raft/src/main/java/ua/vk/ucu/dads/raft/RaftNode.java:399-418 | An accepted request leaves the leader's whole log at the front of the follower's. |
| `RaftRepair.RetryUntilRepaired` | 02-raft/src/main/java/ua/vk/ucu/dads/raft/RaftNode.java:272-295 | Any run with a request in flight can go on, with fewer than 2 * nextIndex deliveries and fewer than nextIndex of them rejections, to where the follower's log is repaired. |
| `RaftRepair.BackOffRepairs` | 02-raft/src/main/java/ua/vk/ucu/dads/raft/RaftNode.java:224-295 | Any run can go on, with one failed call, one heartbeat and those deliveries, to where the leader's log is at the front of a follower's of no later term; fewer than nextIndex of them are rejections. |
| `RaftRepair.CommitSpreads` | 02-raft/src/main/java/ua/vk/ucu/dads/raft/RaftNode.java:407-425 | A follower that has the leader's whole log and takes in any request the leader has for it, with entries or without, has then applied all that the leader has committed. |
| `RaftRepair.CommitReachesFollower` | 02-raft/src/main/java/ua/vk/ucu/dads/raft/RaftNode.java:224-295 | Any run can go on, within fewer than 2 * nextIndex + 5 steps, to where a follower of no later term has the leader's log, has committed and applied all the leader has committed, and holds the replay of that prefix. |
| `RaftRepair.AheadBeforeSuccess` | 02-raft/src/main/java/ua/vk/ucu/dads/raft/RaftNode.java:281-294 | In every run, from taking office to a follower's first success nothing is known of it and matchIndex < nextIndex. |
| `RaftRepair.AheadExactly` | 02-raft/src/main/java/ua/vk/ucu/dads/raft/RaftNode.java:281-294 | In every run, from a success of the follower to its next one matchIndex < nextIndex holds if and only if no rejection of its has come in since (or it is known to hold nothing), and nextIndex never exceeds matchIndex + 1. |
| `RaftLateRejection.RejectionAfterSuccess` | 02-raft/src/main/java/ua/vk/ucu/dads/raft/RaftNode.java:281-294 | That condition is needed: a run of two nodes in which the rejection of an earlier call comes in after a success and leaves nextIndex at matchIndex. |
| `RaftCalls.CallsInOrder` | 02-raft/src/main/java/ua/vk/ucu/dads/raft/RaftNode.java:234-295 | In every run every reply answers a call, and a leader's calls to a peer are in order: up to the first success each reaches to where any of them starts, and from then on none starts behind what the peer is known to hold. |
| `RaftCalls.LateRejectionIsOld` | 02-raft/src/main/java/ua/vk/ucu/dads/raft/RaftNode.java:257-295 | In every run a rejection that reaches a leader after a success of that peer in that term was given before the success came in: no call handled after it is rejected. |
| `RaftCalls.AheadInTurn` | 02-raft/src/main/java/ua/vk/ucu/dads/raft/RaftNode.java:257-295 | In every run in which each rejection was given after the answers that came in before it, as when calls do not overlap, matchIndex < nextIndex from taking office on. |
| `RaftRepair.CursorStep` | 02-raft/src/main/java/ua/vk/ucu/dads/raft/RaftNode.java:272-295 | While a node leads a term, only the peer's answers move its matchIndex and nextIndex: a success raises matchIndex to what it acknowledges and puts nextIndex right behind it, a rejection lowers nextIndex by one. |
| `RaftRepair.RejectionsBounded` | 02-raft/src/main/java/ua/vk/ucu/dads/raft/RaftNode.java:272-295 | In every run, whatever is delivered in between and in whatever order: while a leader waits for a peer's first success, the rejections of the request its cursor stands for and the cursor together never exceed where the cursor was. |
| `RaftRepair.AcknowledgedAccepts` | 02-raft/src/main/java/ua/vk/ucu/dads/raft/RaftNode.java:272-295 | In every run, once a peer has answered a request of a term with success it accepts, for as long as it stays in the term, every request of that leader that starts no later than what it then held. |
| `RaftRepair.RedeliveryKeepsLog` | 02-raft/src/main/java/ua/vk/ucu/dads/raft/RaftNode.java:407-418 | Delivering again what a follower already holds, or an older and shorter request, leaves its log as it is. |
| `RaftSafety.OneNodeAnswers` | 02-raft/src/main/java/ua/vk/ucu/dads/raft/RaftNode.java:112-165 | The theorems have runs to speak of: a cluster of one elects itself, commits a command and answers its client. |
| `RaftFailover.LeaderIsReplaced` | 02-raft/src/main/java/ua/vk/ucu/dads/raft/RaftNode.java:153-202 | A run of three nodes: a leader copies one entry of two, is deposed and tells both clients NOT_LEADER; its successor cuts off and replaces the second entry, and commits and applies the first. |
| `RaftNodes.RaftNode.SubmitCommand` | 02-raft/src/main/java/ua/vk/ucu/dads/raft/RaftNode.java:112-126 | The method's whole new state is the step function's whose runs the theorems are about; the future is the next unused one. |
| `RaftNodes.RaftNode.OnElectionTimeout` | 02-raft/src/main/java/ua/vk/ucu/dads/raft/RaftNode.java:149-151 | A timeout starts a round exactly as the step function says, and a cancelled timer does nothing. |
| `RaftNodes.RaftNode.StartElectionRound` | 02-raft/src/main/java/ua/vk/ucu/dads/raft/RaftNode.java:153-186 | The round's new state, including a single-node cluster's immediate win, is the step function's. |
| `RaftNodes.RaftNode.AskForVotes` | 02-raft/src/main/java/ua/vk/ucu/dads/raft/RaftNode.java:167-186 | The loop asks each peer once, with the log position of this round. |
| `RaftNodes.RaftNode.OnVoteResponse` | 02-raft/src/main/java/ua/vk/ucu/dads/raft/RaftNode.java:188-202 | Stepping down, ignoring a stale reply and counting a grant are the step function's cases. |
| `RaftNodes.RaftNode.BecomeLeader` | 02-raft/src/main/java/ua/vk/ucu/dads/raft/RaftNode.java:204-222 | Taking office and the first round of requests end in the step function's state. |
| `RaftNodes.RaftNode.TakeOffice` | 02-raft/src/main/java/ua/vk/ucu/dads/raft/RaftNode.java:205-217 | The loop resets nextIndex to lastIndex + 1 and matchIndex to 0 for exactly the peers and clears inFlight. |
| `RaftNodes.RaftNode.ReplicateToAllPeers` | 02-raft/src/main/java/ua/vk/ucu/dads/raft/RaftNode.java:225-232 | The loop over peers sends to each one not in flight, once, from the state at the start. |
| `RaftNodes.RaftNode.ReplicateTo` | 02-raft/src/main/java/ua/vk/ucu/dads/raft/RaftNode.java:234-270 | The request built from nextIndex and the log is the one the step function sends. |
| `RaftNodes.RaftNode.OnAppendEntriesResponse` | 02-raft/src/main/java/ua/vk/ucu/dads/raft/RaftNode.java:272-295 | All branches, from stepping down to streaming more entries or backing off, end in the step function's state. |
| `RaftNodes.RaftNode.CountHolders` | 02-raft/src/main/java/ua/vk/ucu/dads/raft/RaftNode.java:306-311 | The loop counts the leader and every peer whose matchIndex reaches the index. |
| `RaftNodes.RaftNode.AdvanceCommitIndex` | 02-raft/src/main/java/ua/vk/ucu/dads/raft/RaftNode.java:298-317 | The scan loop sets the commit index to the scan function's result, which `ScanFindsGreatest` characterises. |
| `RaftNodes.RaftNode.ApplyCommitted` | 02-raft/src/main/java/ua/vk/ucu/dads/raft/RaftNode.java:319-336 | The loop applies exactly the entries up to the commit index, in order, answering the clients waiting at them; past the log's end it throws, and says so. |
| `RaftNodes.RaftNode.ApplyNext` | 02-raft/src/main/java/ua/vk/ucu/dads/raft/RaftNode.java:321-333 | One turn removes the waiting client at its index and answers it with the outcome of applying the entry. |
| `RaftNodes.RaftNode.BecomeFollower` | 02-raft/src/main/java/ua/vk/ucu/dads/raft/RaftNode.java:338-351 | A later term clears the vote; in every case waiting clients are refused and the timer is armed. |
| `RaftNodes.RaftNode.FailPendingClients` | 02-raft/src/main/java/ua/vk/ucu/dads/raft/RaftNode.java:354-360 | Every waiting future, and no other, is answered NOT_LEADER. |
| `RaftNodes.RaftNode.HandleRequestVote` | 02-raft/src/main/java/ua/vk/ucu/dads/raft/RaftNode.java:362-377 | New state and reply are the step function's: at most one candidate per term, and only an up-to-date one. |
| `RaftNodes.RaftNode.IsLogUpToDate` | 02-raft/src/main/java/ua/vk/ucu/dads/raft/RaftNode.java:380-387 | The election restriction: later last term, or equal last term and no shorter log. |
| `RaftNodes.RaftNode.HandleAppendEntries` | 02-raft/src/main/java/ua/vk/ucu/dads/raft/RaftNode.java:389-425 | New state and reply are the step function's in every case: stale term, failed consistency check, acceptance; a request that would apply past the log's end gives no reply. |
| `RaftProtocol.TryAppendThrows` | 02-raft/src/main/java/ua/vk/ucu/dads/raft/RaftNode.java:389-425 | Handling a request ends in an exception if and only if it is accepted, something is left to apply, and the merged log is shorter than the commit index it goes on to. |
| `RaftNodes.RaftNode.MergeEntries` | 02-raft/src/main/java/ua/vk/ucu/dads/raft/RaftNode.java:407-418 | The entry loop leaves the log that `MergeYieldsSenderLog` characterises. |
| `RaftLog.LogStore.Append` | 02-raft/src/main/java/ua/vk/ucu/dads/raft/log/LogStore.java:13-17 | Appends at the end and returns the new entry's 1-based index. |
| `RaftLog.LogStore.Get` | 02-raft/src/main/java/ua/vk/ucu/dads/raft/log/LogStore.java:19-24 | The entry at a 1-based index, or the out-of-range case. |
| `RaftLog.LogStore.GetLastTerm` | 02-raft/src/main/java/ua/vk/ucu/dads/raft/log/LogStore.java:30-32 | The last entry's term, 0 when empty. |
| `RaftLog.LogStore.GetEntriesFrom` | 02-raft/src/main/java/ua/vk/ucu/dads/raft/log/LogStore.java:34-43 | The entries from an index on, with an index below 1 read as 1 and one past the end giving none. |
| `RaftLog.LogStore.TruncateFrom` | 02-raft/src/main/java/ua/vk/ucu/dads/raft/log/LogStore.java:45-49 | Removes exactly the entries from the index on. |
| `KeyValue.Wrap32` | 02-raft/src/main/java/ua/vk/ucu/dads/statemachine/StateMachine.java:29-29 | Java int addition: the result is in range, congruent to the sum, and the sum itself when that fits. |
| `KeyValue.AppliedTouchesOneKey` | 02-raft/src/main/java/ua/vk/ucu/dads/statemachine/StateMachine.java:13-32 | A command changes at most its own key, fails exactly for a non-SET on an absent key, and then changes nothing. |
| `KeyValue.AppliedCarries` | 02-raft/src/main/java/ua/vk/ucu/dads/statemachine/StateMachine.java:13-32 | SET stores and answers its value; ADD and SUBTRACT on a present key store and answer a Java int congruent modulo 2^32 to the old value plus, or minus, the command's; on an absent key nothing changes. |
| `KeyValue.CarriesDetermines` | 02-raft/src/main/java/ua/vk/ucu/dads/statemachine/StateMachine.java:13-32 | That says everything: map and answer after a command are determined by it. |
| `KeyValue.StateMachine.Apply` | 02-raft/src/main/java/ua/vk/ucu/dads/statemachine/StateMachine.java:13-22 | SET stores its value; ADD and SUBTRACT change a present key by theirs in wrapping int arithmetic and fail on an absent one; the outcome is the stored value, and the whole map is that of the function the log is replayed with. |
| `ByteStrings.LeRoundTrip` | 01-btree/src/page/free_list.rs:19-26 | Little-endian encoding in a fixed width gives a number back exactly when it fits. |
| `ByteStrings.LeDigits` | 01-btree/src/page/header.rs:46-58 | Byte i of an encoded number is its digit i in base 256, the least significant first. |
| `ByteStrings.LessIsLexicographic` | 01-btree/src/page/leaf.rs:157-168 | One key is less than another if and only if they agree up to some position at which the first has ended or has the smaller byte. |
| `ByteStrings.LessTransitive` | 01-btree/src/page/leaf.rs:161-165 | Byte-string order is transitive. |
| `ByteStrings.LessTotal` | 01-btree/src/page/leaf.rs:161-165 | Any two byte strings are ordered one way, the other, or equal. |
| `PageFormat.EntriesRoundTrip` | 01-btree/src/page/leaf.rs:44-55 | Entries laid end to end parse back to themselves, whatever bytes follow. |
| `PageFormat.KeysRoundTrip` | 01-btree/src/page/internal.rs:41-50 | Separators laid end to end parse back, leaving exactly the bytes after them. |
| `PageFormat.PageRoundTrip` | 01-btree/src/page/mod.rs:21-36 | Any bytes that begin with a page's encoding decode to its contents under its id, whatever the padding, for both page kinds. |
| `PageFormat.PageBytesInjective` | 01-btree/src/page/mod.rs:30-35 | Different contents or different ids never have the same page bytes. |
| `PageLayout.LeafLayout` | 01-btree/src/page/leaf.rs:142-151 | A leaf page holds tag 1, its id at byte 1, its entry count at byte 9, and from byte 11 each entry right behind the one before, as key length, key, value length, value; zeros follow. |
| `PageLayout.InnerLayout` | 01-btree/src/page/internal.rs:144-159 | An internal page holds tag 2, its id, its separator count, from byte 11 the separators with their lengths, and behind them one child id per eight bytes; zeros follow. |
| `PageLayout.FreeListLayout` | 01-btree/src/page/free_list.rs:16-28 | A free-list page holds tag 3, its id at byte 1, the next page at 9, the count at 17 and the ids from byte 19; zeros follow. |
| `PageLayout.HeaderLayout` | 01-btree/src/page/header.rs:45-58 | The header page holds tag 0x2A, the signature, version 2, page size, root, next page id, free-list head and count, each at its offset; zeros follow. |
| `PageLayout.HeaderIsRecognised` | 01-btree/src/page/header.rs:61-79 | A page is a header if and only if tag and signature say so; only version 2 is read, and any other is reported as found. |
| `PageFormat.FittingIsEncodable` | 01-btree/src/page/leaf.rs:92-103 | Contents that fit a page of at most 65535 bytes have no length or count that a u16 would truncate. |
| `FreeListPages.FreeListRoundTrip` | 01-btree/src/page/free_list.rs:16-45 | A free-list page decodes to the next id and the ids it was encoded from, whatever its padding. |
| `HeaderPages.HeaderRoundTrip` | 01-btree/src/page/header.rs:48-79 | A header page decodes to the header it was encoded from exactly when every field fits its place. |
| `HeaderPages.OtherPagesAreNotHeaders` | 01-btree/src/page/header.rs:61-64 | A blank page or a page of another kind is never taken for a header. |
| `HeaderPages.ToBytes` | 01-btree/src/page/header.rs:48-59 | Writing the fields into a zeroed buffer gives the page that `HeaderRoundTrip` is about. |
| `FreeListPages.FreeListEncode` | 01-btree/src/page/free_list.rs:16-29 | The loop writes the page that `FreeListRoundTrip` is about. |
| `FreeListPages.FreeListDecode` | 01-btree/src/page/free_list.rs:32-45 | The loop returns what the page parses to. |
| `LeafNodes.LeafNode.Decode` | 01-btree/src/page/leaf.rs:36-60 | The decoding loop rebuilds the contents the page parses to, with an offset index that is right for every entry. |
| `LeafNodes.LeafNode.GetKey` | 01-btree/src/page/leaf.rs:70-74 | Reading through the offset index gives entry idx's key. |
| `LeafNodes.LeafNode.GetVal` | 01-btree/src/page/leaf.rs:76-83 | Reading through the offset index gives entry idx's value. |
| `LeafNodes.LeafNode.Push` | 01-btree/src/page/leaf.rs:92-103 | Appends one entry whatever its size; the offset recorded is the size so far as a u16, and the offset index is right while the entries stay within 65535 bytes. |
| `LeafNodes.LeafNode.PushRange` | 01-btree/src/page/leaf.rs:106-110 | Appends exactly a stretch of another leaf's entries. |
| `LeafNodes.LeafNode.ToBytes` | 01-btree/src/page/leaf.rs:142-151 | The page is header, entries and zeros, as the round trip needs. |
| `LeafNodes.LeafSearch` | 01-btree/src/page/leaf.rs:157-168 | Binary search returns the index of the key, or the one position that separates smaller keys from larger. |
| `LeafNodes.LeafInsert` | 01-btree/src/page/leaf.rs:171-177 | A new leaf with the entry at its position among the old entries. |
| `LeafNodes.LeafUpdate` | 01-btree/src/page/leaf.rs:180-186 | A new leaf with the entry in place of the old one. |
| `LeafNodes.LeafSplitBySize` | 01-btree/src/page/leaf.rs:190-218 | The two loops, with their u16 sums, find the cut of `LeafSplitSucceeds`, and the halves are the entries before and after it. |
| `InternalNodes.InternalNode.Decode` | 01-btree/src/page/internal.rs:35-67 | The decoding loops rebuild the separators and children the page parses to, with a right offset index. |
| `InternalNodes.InternalNode.GetKey` | 01-btree/src/page/internal.rs:81-85 | Reading through the offset index gives separator idx. |
| `InternalNodes.InternalNode.PushKey` | 01-btree/src/page/internal.rs:95-104 | Appends one separator whatever its size; the offset index is right while the separators stay within 65535 bytes. |
| `InternalNodes.InternalNode.ToBytes` | 01-btree/src/page/internal.rs:144-160 | The page is header, separators, children and zeros. |
| `InternalNodes.InternalChildIndex` | 01-btree/src/page/internal.rs:162-173 | Binary search returns the number of separators at most the key, which is the child that covers it. |
| `InternalNodes.InternalReplaceChild` | 01-btree/src/page/internal.rs:175-188 | A copy with one child id replaced and the separators unchanged. |
| `InternalNodes.InternalInsertSplitChild` | 01-btree/src/page/internal.rs:199-223 | A copy with one child replaced by two around the new separator, edges included. |
| `InternalNodes.InternalSplitWithPromotion` | 01-btree/src/page/internal.rs:233-286 | The two loops, with their u16 sums, find the cut of `InnerSplitSucceeds`; left keys, promoted key and right keys are the old keys in order, and the children are divided between the halves. |
| `Stores.DecodePage` | 01-btree/src/page/mod.rs:22-28 | Dispatch on the type tag rebuilds the node whose image the page is. |
| `SplitPoints.PutFitsOrOvergrows` | 01-btree/src/page/mod.rs:57-68 | One insert or update within the limits leaves a fitting leaf fitting, or oversized by at most one entry. |
| `SplitPoints.LeafSplitSucceeds` | 01-btree/src/page/leaf.rs:190-218 | Every such oversized leaf is cut into two non-empty halves that both fit, and the up loop never undoes the down loop. |
| `SplitPoints.LeafCutIsNearest` | 01-btree/src/page/leaf.rs:190-218 | Every cut with halves that fit lies on the far side of the one chosen, seen from the middle; so the middle is chosen whenever both its halves fit. |
| `SplitPoints.LeafSumsFit` | 01-btree/src/page/leaf.rs:195-211 | Up to the page-size bound no size the two loops compute wraps 16 bits. |
| `SplitPoints.OffsetsFitExactly` | 01-btree/src/page/leaf.rs:92-103 | From 49 bytes up, no put into a fitting sorted leaf overflows a u16 offset if and only if the page size is at most 43708. |
| `WrappedOffsets.StartsFitExactly` | 01-btree/src/page/leaf.rs:92-104 | Up to the source's own limit of 65535, the start of every entry of every grown leaf fits a u16 if and only if the page size is at most 43711. |
| `WrappedOffsets.LastEntryMisread` | 01-btree/src/page/leaf.rs:66-84 | For every page size from 43712 to 65535 some put makes the last entry start at 65536, recorded as 0, so that reading it, as the split does, gives the key and value of the first. |
| `SplitPoints.AbsorbFitsOrOvergrows` | 01-btree/src/page/internal.rs:199-223 | A fitting internal page that takes in one separator within the limits still fits, or is oversized by at most that separator and child. |
| `SplitPoints.TwoSeparatorsFit` | 01-btree/src/page/internal.rs:249-252 | Two separators of the largest size and three children always fit. |
| `SplitPoints.InnerSplitSucceeds` | 01-btree/src/page/internal.rs:233-269 | Every such oversized internal page is cut at some 1 <= m <= np - 2 with both halves fitting, and the up loop never undoes the down loop. |
| `SplitPoints.InnerCutIsNearest` | 01-btree/src/page/internal.rs:233-269 | The same for the promoted separator: no other that leaves two halves that fit is nearer to the middle on its side. |
| `SplitPoints.LimitIsGreatest` | 01-btree/src/page/mod.rs:57-59 | The entry limit is the greatest separator size at which two separators and three children fit a page. |
| `SplitPoints.InnerSumsFit` | 01-btree/src/page/internal.rs:243-264 | Up to the page-size bound no size the two loops compute wraps 16 bits. |
| `KeySearch.RankSeparates` | 01-btree/src/page/leaf.rs:154-168 | In a sorted leaf the search position has exactly the smaller keys before it. |
| `KeySearch.RankIs` | 01-btree/src/page/leaf.rs:154-168 | No other position does. |
| `KeySearch.ChildRankSeparates` | 01-btree/src/page/internal.rs:162-173 | The child index has exactly the separators at most the key before it. |
| `KeySearch.UpsertedSorted` | 01-btree/src/storage/tree.rs:25-28 | A put keeps a leaf's keys strictly increasing. |
| `TreeNodes.TreeOrdered` | 01-btree/src/page/internal.rs:16-17 | Under the separator convention all entries of a tree are in order and within its bounds. |
| `TreeNodes.CoveringChild` | 01-btree/src/storage/tree.rs:51-52 | The child a descent takes covers the key: everything to its left is smaller and everything to its right larger. |
| `TreeNodes.LookupIsMapLookup` | 01-btree/src/storage/tree.rs:141-152 | Descending by child index and searching one leaf gives what the map of all entries gives, for present and absent keys. |
| `TreeNodes.UpsertIsMapUpdate` | 01-btree/src/storage/tree.rs:24-28 | Inserting or updating at the searched position changes exactly one key of the map. |
| `TreeInsert.InsertFits` | 01-btree/src/storage/tree.rs:44-86 | Insertion keeps every page within its size, all leaves at one depth, and promotes only separators within the limit. |
| `TreeOrder.InsertOrdered` | 01-btree/src/storage/tree.rs:24-86 | Insertion keeps the separator convention, with a promoted separator strictly inside the bounds, and its entries are the old ones with the put applied. |
| `TreeOrder.PutRefinesMap` | 01-btree/src/storage/tree.rs:95-134 | A put within the limits gives a well-formed tree, at most one level higher, whose map is the old map with that key set. |
| `TreeStock.InsertBalanced` | 01-btree/src/storage/tree.rs:44-86 | Pages under the result plus orphans are the old pages plus the newly written ones, counted with multiplicity. |
| `TreeStock.PutConserves` | 01-btree/src/storage/tree.rs:95-134 | The same for a whole put, and every id handed out came off the free list or the end of the file and was written. |
| `TreeStorage.InsertStored` | 01-btree/src/storage/tree.rs:57-74 | On any disk that kept the old pages and took the buffered images, every child the result points at is stored. |
| `TreeStorage.PutStored` | 01-btree/src/storage/tree.rs:95-134 | After the images are written the new tree is stored in full and no page of the old one was touched. |
| `TreeStorage.StoredFrame` | 01-btree/src/storage/store.rs:171-174 | A stored tree depends on its own pages only. |
| `Trees.CheckLimits` | 01-btree/src/page/mod.rs:61-68 | An entry is refused exactly when key and value together exceed the limit. |
| `Trees.InsertLeafPage` | 01-btree/src/storage/tree.rs:24-42 | The rebuilt page or pages are those of the insertion function, split included. |
| `Trees.InsertInternal` | 01-btree/src/storage/tree.rs:44-86 | The recursive copy, with its allocations, writes and frees in order, is the insertion function's. |
| `Trees.AbsorbRebuilt` | 01-btree/src/storage/tree.rs:61-85 | Storing a rebuilt child or two and pointing at them is the function's parent step. |
| `Trees.Put` | 01-btree/src/storage/tree.rs:95-134 | A refused put changes nothing; any other leaves the store exactly as the whole-put function says, with one key of the map changed and at most one level more, and consistent while page ids last. |
| `Trees.Get` | 01-btree/src/storage/tree.rs:141-152 | The loop's answer is the map's for that root. |
| `StoreState.Parts` | 01-btree/src/storage/store.rs:38-44 | In an accounted store no page plays two parts among header, tree, free, pending, chain and leaked, and every page used is below next_page_id. |
| `StoreState.BeginPut` | 01-btree/src/storage/store.rs:211-218 | A put's allocations keep the account exact while its pages are not yet in any tree. |
| `StoreState.WritesApart` | 01-btree/src/storage/store.rs:211-218 | A put writes each page once, and never one of the published tree, the pending list, the chain or the header. |
| `StoreState.GateAccounts` | 01-btree/src/storage/store.rs:243-248 | After the gate the new tree is accounted for, whether or not the orphans were promoted. |
| `StoreState.GrownAccounts` | 01-btree/src/storage/store.rs:279-283 | Extending the chain takes exactly the new ids at the end of the file. |
| `StoreSpec.ChainWritten` | 01-btree/src/storage/store.rs:284-295 | Writing the chain pages makes the whole list readable again from the head, every entry in order. |
| `StoreSpec.ChainIsDetermined` | 01-btree/src/storage/store.rs:55-65 | A walk from a given page has one outcome only. |
| `StoreSpec.ChunkAt` | 01-btree/src/storage/store.rs:291-291 | Chunk i of the payload is the stretch of cap ids from i * cap. |
| `StoreSpec.CapacityIsGreatest` | 01-btree/src/page/free_list.rs:12-14 | A free-list page takes as many ids as fit behind its header, and no page could take one more. |
| `StorePut.PersistWorks` | 01-btree/src/storage/store.rs:250-261 | Chain pages then header make the root, next_page_id, free list and pending list recoverable. |
| `StorePut.PutNext` | 01-btree/src/storage/tree.rs:76-129 | A put grows the file by at most two pages a level and three more. |
| `StorePut.PutKeepsConsistent` | 01-btree/src/storage/store.rs:239-264 | A whole put leaves a consistent store (stored well-formed tree, exact page account, up-to-date header and chain) with one key changed. |
| `StorePut.ReopenRecovers` | 01-btree/src/storage/store.rs:74-113 | Reopening finds the published root and next_page_id, and the chain walk gives exactly free ++ pending in order; surplus chain pages are leaked and all else stays accounted for. |
| `StorePut.BootstrappedConsistent` | 01-btree/src/storage/store.rs:92-102 | A freshly created store is consistent and empty, with its root on page 1 and page 2 next. |
| `StoreProtocol.StepKeepsInv` | 01-btree/src/storage/store.rs:239-301 | Every page write, the gate, each chain write, the header write, the publication and every reader step keeps the store's invariant. |
| `StoreSafety.MapRefinement` | 01-btree/src/storage/tree.rs:136-152 | At every moment of every run any lookup in the published root gives what the published puts, folded in order, give. |
| `StoreSafety.PutsInOrder` | 01-btree/src/storage/store.rs:120-130 | Every put begun is published, in order, except the one in progress. |
| `StoreSafety.PagesConserved` | 01-btree/src/storage/store.rs:211-301 | After every commit of every run each id below next_page_id plays exactly one part and no other id plays any; without reopening nothing is leaked. |
| `StoreSafety.CommitIsAtomic` | 01-btree/src/storage/store.rs:239-264 | At every moment the header names a tree stored intact: the old one until the header is written, the new one from then on. |
| `StoreSafety.ReopenAfterRun` | 01-btree/src/storage/store.rs:74-113 | After any completed run the disk reopens to the same root and next_page_id, with the count of free pages, and the walk of the chain has one outcome: the free pages, then the pending ones, in order. |
| `StoreSafety.LoadIsSafe` | 01-btree/src/storage/store.rs:168-170 | A root loaded outside the window has only pages that are in the newest tree or pending. |
| `StoreSafety.KeptPagesNotOverwritten` | 01-btree/src/storage/store.rs:239-264 | No step of any commit overwrites such a page. |
| `StoreSafety.SafeStep` | 01-btree/src/storage/store.rs:243-248 | While its reader is counted, no step of anyone else takes a snapshot's safety away; the gate cannot promote. |
| `StoreSafety.ReaderIsolation` | 01-btree/src/storage/store.rs:115-118 | A root loaded outside the gate-to-publish window stays readable, page for page unchanged, while its reader stays, and reads as the map published when it loaded. |
| `StoreReads.SnapshotReads` | 01-btree/src/storage/tree.rs:141-152 | A lookup that decodes each level's page from the bytes on disk at any moment before its reader leaves gives the map published when the root was loaded. |
| `StoreReads.RecoveredMap` | 01-btree/src/storage/store.rs:239-264 | At every moment of every run, decoding the header page and then the pages below its root from the bytes then on disk gives, for every key, the map before the current put until its header is written and the map after it from then on. |
| `StoreReads.ReadAlongIsLookup` | 01-btree/src/storage/tree.rs:141-152 | With the tree stored, descending by decoded bytes is descending the tree. |
| `StoreWindow.PutFirstWrite` | 01-btree/src/storage/tree.rs:24-42 | A put's first image is a non-empty leaf, written to the next id the allocator hands out; the smallest key comes first in it. |
| `StoreWindow.WindowLoadIsOverwritten` | 01-btree/src/storage/store.rs:245-263 | From any moment of the window the writer can go on to the next put and write its first image, a leaf, over the root page a reader loads in the window; the snapshot is gone unless that leaf equals the whole old tree. |
| `StoreWindow.WindowLoadIsLost` | 01-btree/src/storage/store.rs:245-263 | From any moment of the window, with room for one more put, some put destroys the snapshot loaded there, whatever the old tree is. |
| `StoreWindow.IsolationExactly` | 01-btree/src/storage/store.rs:239-264 | In every run, the root a reader loads stays readable through every continuation in which the reader has not left, if and only if it was loaded outside the window (or page ids had run out for good). |
| `StoreWindow.IsolationNeedsHypothesis` | 01-btree/src/storage/store.rs:245-263 | From any fresh store there is a run in which a counted reader that loads in the window loses its snapshot. |
| `StoreCrash.CrashBeforeHeader` | 01-btree/src/storage/store.rs:250-261 | With the chain written and the header not, the header's tree is intact, but its chain lists the root it names as free if and only if the header names a chain at all. |
| `StoreCrash.RunHeadNamed` | 01-btree/src/storage/store.rs:296-300 | The header names no chain or the chain's first page, which never changes while the store is open. |
| `StoreRecovery.CrashRecovery` | 01-btree/src/storage/store.rs:239-301 | Stopping at any moment of any run leaves a disk that opens to a consistent store with the header's tree, if and only if no commit is past its gate or the chain pages rewritten so far say what they said and neither end the header's chain early nor lead beyond it; otherwise no way of opening it is sound. |
| `StoreRecovery.NoOldChain` | 01-btree/src/storage/store.rs:295-300 | The list a put started from was empty exactly when the header on disk names no chain. |
| `StoreRecovery.PutPassesBadCrash` | 01-btree/src/storage/store.rs:250-261 | Every put into a store whose header names a chain passes a moment at which stopping leaves no sound store. |
| `StoreRecovery.CrashLosesFreeList` | 01-btree/src/storage/store.rs:250-261 | From any fresh store the second put reaches such a moment, with the header naming a chain that lists the very root the header names. |
| `StoreRestarts.RestartIsOpening` | 01-btree/src/storage/store.rs:74-113 | The store a run goes on with after a crash is the one that opening the disk gives, and it is consistent. |
| `StoreRestarts.EventKeepsInv` | 01-btree/src/storage/store.rs:74-113 | Every step, and every crash at a moment at which stopping is sound, keeps the invariant. |
| `StoreRestarts.MapAcrossCrashes` | 01-btree/src/storage/store.rs:74-113 | In every run with any number of crashes, looking up a key in the published tree is looking up the published puts. |
| `StoreRestarts.PagesAcrossCrashes` | 01-btree/src/storage/store.rs:74-113 | In every run with crashes, each id below next_page_id plays exactly one part between puts. |
| `StoreRestarts.PutsAreDurable` | 01-btree/src/storage/store.rs:239-264 | No published put is ever lost; a crash leaves the put in progress out, or completes it if its header had been written. |
| `StoreRestarts.RecoveryAcrossCrashes` | 01-btree/src/storage/store.rs:239-301 | In every run with crashes, a moment is one at which stopping is sound if and only if the disk opens soundly then. |
| `StoreRuns.UninterruptedPut` | 01-btree/src/storage/store.rs:239-264 | The protocol's steps for a put without reader activity add up to the whole-put function, and can always be taken. |
| `StoreRuns.PutDraws` | 01-btree/src/storage/store.rs:211-218 | A put grows the file only by what the free list cannot supply and orphans one page per level. |
| `StoreRuns.PutLeavesPages` | 01-btree/src/storage/store.rs:243-248 | After a put that no reader saw the reusable pages are those not drawn, then those that waited, then its orphans, in order; otherwise its orphans queue behind those that wait. |
| `StoreRuns.SteadyState` | 01-btree/src/storage/store.rs:243-283 | As a function: without readers, a put that splits nothing, after one that added no level, leaves next_page_id, the chain and the number of free pages as they were. |
| `StoreRuns.PutSegment` | 01-btree/src/storage/store.rs:239-264 | In every run, whatever readers do in between, the put between two idle moments is the whole-put function applied to the first, with what the gate read when it was passed. |
| `StoreRuns.SteadyRun` | 01-btree/src/storage/store.rs:243-283 | In every run, with no reader about, a put that splits nothing, after one that added no level, leaves next_page_id, the chain and the number of free pages as they were. |
| `StoreRuns.PagesComeBack` | 01-btree/src/storage/store.rs:239-248 | No page waits for ever: from any moment between puts of any run the readers can leave and a put be carried through, after which every page that was pending, and every one the new tree no longer has, is free. |
| `StoreForgets.ReopeningForgets` | 01-btree/src/storage/store.rs:280-296 | Some run of a fresh store ends with a reopening that forgets a chain page: a put that splits shortens the list and the chain does not shrink with it. |
| `Stores.PageIo.ReadPage` | 01-btree/src/io/mod.rs:12-14 | A page never written reads as zeros. |
| `Stores.LoadFreeListChain` | 01-btree/src/storage/store.rs:55-65 | The walk ends and collects exactly the ids and entries of the finite chain it reads, whatever tags and ids its pages carry. |
| `Stores.ChainIsRead` | 01-btree/src/storage/store.rs:55-65 | A well-formed chain is what the walk, which checks neither tag nor id, reads. |
| `Stores.Store.OpenOrCreate` | 01-btree/src/storage/store.rs:74-113 | Another page size or version is an error that changes nothing; a valid header gives the recorded state; no header gives a fresh store. |
| `Stores.WriteTxn.Read` | 01-btree/src/storage/store.rs:202-207 | Reads its own latest write of the page, or else the page on disk, decoded. |
| `Stores.WriteTxn.Alloc` | 01-btree/src/storage/store.rs:211-218 | The last free page if there is one, else the next page of the file. |
| `Stores.WriteTxn.Commit` | 01-btree/src/storage/store.rs:239-264 | The store after the call is the commit function's, with the gate deciding on the reader count it saw. |
| `Stores.WriteTxn.PersistFreeList` | 01-btree/src/storage/store.rs:266-301 | The chain is extended as needed and its pages, head and count are those of the payload. |

## Left out

- gRPC client and server, HTTP API, Docker, tests, `Main`, `StorageEngine`, file and memory backends: plumbing around the cores.
- Clocks, executors and random delays: a timeout or heartbeat may happen at any time; message loss stands for failed calls.
- Heartbeat scheduling: `replicateToAllPeers` may run at any node at any time, which covers every schedule.
- `ServerState` snapshots, `NodeConfig` parsing, protobuf mapping, printing and error texts: they hold no state the results need.
- Restarts, persistence, membership change and log compaction of Raft: the source has none.
- Liveness of elections: nothing bounds message loss. `RaftRepair.BackOffRepairs` gives a schedule that repairs a follower and `RaftRepair.RejectionsBounded` bounds the rejections of any.
- Futures are numbered per node in submission order; a completed future is an entry of `answered`.
- Each RPC's response carries what its callback closure remembers of the request (term, previous index, count).
- Buffer capacities (`capacity_hint`) and object reuse of `Vec`s: they do not affect contents.
- `sync`: in-order atomic page writes stand in for it.
- Memory-model detail below sequential consistency: all the source's atomics are sequentially consistent.
- The classes of `Stores` run one call at a time; interleaving with readers is the subject of `StoreProtocol`, whose uninterrupted puts are proved equal to the same commit function.
- Page writes torn or reordered by a crash: a crash falls between two page writes. Runs that go on after a crash at a moment at which opening is unsound: what such a store does next is not modelled.
- `LeafNodes.LeafNode.Push`: the order of keys that the source checks with a debug assertion is asked for, on the keys pushed and not on what a wrapped offset would read. The same holds of `InternalNodes.InternalNode.PushKey`. No put exceeds 65535 bytes within the page-size bound (`SplitPoints.LeafSumsFit`).
- `LeafNodes.LeafNode.Decode`: asks for bytes that parse, where the source would panic on a slice out of range. The same holds of `InternalNodes.InternalNode.Decode` and `FreeListPages.FreeListDecode`; every page a store reads parses (`PageFormat.PageRoundTrip`).
- `Stores.Store.OpenOrCreate`: asks for pages that hold a header, without which the source panics, and that a valid header leads to a finite chain of readable pages, without which the source's walk would not end or would panic; debug builds also panic on a page of another tag or id; every completed run leaves one (`StoreSafety.ReopenAfterRun`).
- `Trees.Put`: does not model the overflow of the source's 64-bit page counter; the store is promised consistent while there is room below 2^64.
- `RaftNodes.RaftNode.HandleAppendEntries`: an exception is a missing reply; in every run there is none (`RaftSafety.NoExceptions`). The preconditions of the other handlers are met in every run (`RaftCluster.EveryStepDefined`).
