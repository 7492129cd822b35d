/**
 The Raft node as a value: one field per field of the source's node, plus the
 requests it has handed to the RPC executor and what its client futures hold.
 Every handler of the event loop is a function from the node before to the node after.
 */
module RaftProtocol {
  import opened Wrappers
  import opened KeyValue
  import opened RaftLog

  type Id = int
  type Future = nat

  datatype Status = Follower | Candidate | Leader

  datatype CommandResult =
    | Committed(index: nat, key: string, value: int)
    | Failed(index: nat, key: string)
    | NotLeader

  datatype VoteRequest = VoteRequest(term: nat, candidate: Id, to: Id, lastLogIndex: nat, lastLogTerm: nat)

  /** A vote response together with what the caller's callback remembers of its request. */
  datatype VoteReply = VoteReply(from: Id, to: Id, roundTerm: nat, term: nat, granted: bool)

  datatype AppendRequest = AppendRequest(
    term: nat, leader: Id, to: Id, prevIndex: nat, prevTerm: nat, entries: Log, leaderCommit: nat)

  /** An AppendEntries response together with what the caller's callback remembers of its request. */
  datatype AppendReply = AppendReply(
    from: Id, to: Id, roundTerm: nat, prevIndex: nat, sentCount: nat, term: nat, success: bool)

  datatype Node = Node(
    id: Id,
    peers: set<Id>,
    term: nat,
    votedFor: Option<Id>,
    status: Status,
    leaderId: Option<Id>,
    votes: nat,
    timerArmed: bool,
    log: Log,
    commit: nat,
    applied: nat,
    values: Values,
    nextIndex: map<Id, nat>,
    matchIndex: map<Id, nat>,
    inFlight: set<Id>,
    pending: map<nat, Future>,
    submitted: seq<Command>,
    answered: map<Future, CommandResult>,
    voteRequests: set<VoteRequest>,
    appendRequests: set<AppendRequest>)

  function Majority(clusterSize: nat): nat {
    clusterSize / 2 + 1
  }

  function Initial(id: Id, peers: set<Id>): Node {
    Node(id, peers, 0, None, Follower, None, 0, true, [], 0, 0, map[], map[], map[], {}, map[], [], map[], {}, {})
  }

  /* ---- Stepping down and elections ---- */

  function BecomeFollower(n: Node, seenTerm: nat): Node {
    n.(term := if seenTerm > n.term then seenTerm else n.term,
       votedFor := if seenTerm > n.term then None else n.votedFor,
       status := Follower,
       pending := map[],
       answered := n.answered + map f | f in n.pending.Values :: NotLeader,
       timerArmed := true)
  }

  /** The part of an election round before the votes are asked for. */
  function Candidacy(n: Node): Node {
    n.(term := n.term + 1, status := Candidate, votedFor := Some(n.id), votes := 1,
       leaderId := None, timerArmed := true)
  }

  function RequestVotes(n: Node): Node {
    n.(voteRequests := n.voteRequests +
         set p | p in n.peers :: VoteRequest(n.term, n.id, p, |n.log|, LastTerm(n.log)))
  }

  function StartElection(n: Node): Node {
    var c := Candidacy(n);
    if 1 >= Majority(|n.peers| + 1) then BecomeLeader(c) else RequestVotes(c)
  }

  function OnElectionTimeout(n: Node): Node {
    if n.timerArmed then StartElection(n) else n
  }

  function TakeOffice(n: Node): Node {
    n.(status := Leader, leaderId := Some(n.id), timerArmed := false,
       nextIndex := map p | p in n.peers :: |n.log| + 1,
       matchIndex := map p | p in n.peers :: 0,
       inFlight := {})
  }

  function BecomeLeader(n: Node): Node {
    ReplicateToAll(TakeOffice(n))
  }

  function OnVoteReply(n: Node, r: VoteReply): Node {
    if r.term > n.term then BecomeFollower(n, r.term)
    else if n.status != Candidate || n.term != r.roundTerm || !r.granted then n
    else
      var n1 := n.(votes := n.votes + 1);
      if n1.votes >= Majority(|n.peers| + 1) then BecomeLeader(n1) else n1
  }

  predicate LogUpToDate(candidateLastTerm: nat, candidateLastIndex: nat, log: Log) {
    if candidateLastTerm != LastTerm(log) then candidateLastTerm > LastTerm(log)
    else candidateLastIndex >= |log|
  }

  predicate Grants(n: Node, q: VoteRequest) {
    (n.votedFor == None || n.votedFor == Some(q.candidate)) && LogUpToDate(q.lastLogTerm, q.lastLogIndex, n.log)
  }

  function HandleVoteRequest(n: Node, q: VoteRequest): (Node, VoteReply) {
    if q.term < n.term then (n, VoteReply(n.id, q.candidate, q.term, n.term, false))
    else
      var n1 := if q.term > n.term then BecomeFollower(n, q.term) else n;
      var granted := Grants(n1, q);
      var n2 := if granted then n1.(votedFor := Some(q.candidate), timerArmed := true) else n1;
      (n2, VoteReply(n.id, q.candidate, q.term, n2.term, granted))
  }

  /* ---- Replication ---- */

  function NextFor(n: Node, p: Id): nat {
    if p in n.nextIndex then n.nextIndex[p] else |n.log| + 1
  }

  /** A leader's `logStore.get(prevLogIndex)` is in range for every peer. */
  predicate CursorsInRange(n: Node) {
    n.status == Leader ==> forall p :: p in n.nextIndex ==> 1 <= n.nextIndex[p] <= |n.log| + 1
  }

  function RequestFor(n: Node, p: Id): AppendRequest
    requires n.status == Leader && CursorsInRange(n)
  {
    var next := NextFor(n, p);
    AppendRequest(n.term, n.id, p, next - 1, TermAt(n.log, next - 1), EntriesFrom(n.log, next), n.commit)
  }

  function ReplicateTo(n: Node, p: Id): Node
    requires CursorsInRange(n)
  {
    if n.status != Leader || p in n.inFlight then n
    else n.(inFlight := n.inFlight + {p}, appendRequests := n.appendRequests + {RequestFor(n, p)})
  }

  function ReplicateToAll(n: Node): Node
    requires CursorsInRange(n)
  {
    if n.status != Leader then n
    else n.(inFlight := n.inFlight + n.peers,
            appendRequests := n.appendRequests + set p | p in n.peers && p !in n.inFlight :: RequestFor(n, p))
  }

  /** The follower's merge loop: skip entries of equal term, cut at the first conflict, append the rest. */
  function Merge(log: Log, index: nat, entries: Log): (merged: Log)
    requires index <= |log|
    ensures index + |entries| <= |merged|
    decreases |entries|
  {
    if entries == [] then log
    else if index < |log| && log[index].term == entries[0].term then Merge(log, index + 1, entries[1..])
    else Merge(log[..index] + [entries[0]], index + 1, entries[1..])
  }

  predicate PrevMatches(log: Log, prevIndex: nat, prevTerm: nat) {
    prevIndex <= |log| && (prevIndex > 0 ==> log[prevIndex - 1].term == prevTerm)
  }

  function Min(a: nat, b: nat): nat {
    if a <= b then a else b
  }

  function Max(a: int, b: int): int {
    if a >= b then a else b
  }

  function MergeInto(n: Node, m: AppendRequest): Node
    requires m.prevIndex <= |n.log|
  {
    n.(log := Merge(n.log, m.prevIndex, m.entries))
  }

  function LearnCommit(n: Node, leaderCommit: nat, lastNew: nat): Node {
    if leaderCommit > n.commit then n.(commit := Min(leaderCommit, lastNew)) else n
  }

  /** The node once it has recognised the sender as the leader of the sender's term. */
  function Recognise(n: Node, m: AppendRequest): Node {
    var n1 := if m.term > n.term || n.status != Follower then BecomeFollower(n, m.term) else n;
    n1.(leaderId := Some(m.leader), timerArmed := true)
  }

  predicate Accepts(n: Node, m: AppendRequest) {
    m.term >= n.term && PrevMatches(n.log, m.prevIndex, m.prevTerm)
  }

  /** Merging the request keeps everything this node has committed; otherwise applying could run off the log. */
  predicate KeepsCommitted(n: Node, m: AppendRequest) {
    n.applied <= n.commit <= |n.log| &&
    (Accepts(n, m) ==>
       var merged := Merge(n.log, m.prevIndex, m.entries);
       n.commit <= |merged| && merged[..n.commit] == n.log[..n.commit])
  }

  function HandleAppend(n: Node, m: AppendRequest): (Node, AppendReply)
    requires KeepsCommitted(n, m)
  {
    if m.term < n.term then
      (n, AppendReply(n.id, m.leader, m.term, m.prevIndex, |m.entries|, n.term, false))
    else
      var n1 := Recognise(n, m);
      if !PrevMatches(n.log, m.prevIndex, m.prevTerm) then
        (n1, AppendReply(n.id, m.leader, m.term, m.prevIndex, |m.entries|, n1.term, false))
      else
        var n2 := MergeInto(n1, m);
        var n3 := LearnCommit(n2, m.leaderCommit, m.prevIndex + |m.entries|);
        (ApplyCommitted(n3), AppendReply(n.id, m.leader, m.term, m.prevIndex, |m.entries|, n1.term, true))
  }

  /* ---- Commitment and application ---- */

  function Holders(matchIndex: map<Id, nat>, k: nat): set<Id> {
    set p | p in matchIndex && matchIndex[p] >= k
  }

  function ReplicatedCount(matchIndex: map<Id, nat>, k: nat): nat {
    1 + |Holders(matchIndex, k)|
  }

  /** The downward scan for a majority index, breaking at the first entry of another term. */
  function ScanCommit(n: Node, k: nat): nat
    requires k <= |n.log|
  {
    if k <= n.commit || n.log[k - 1].term != n.term then n.commit
    else if ReplicatedCount(n.matchIndex, k) >= Majority(|n.peers| + 1) then k
    else ScanCommit(n, k - 1)
  }

  function AdvanceCommit(n: Node): Node {
    if n.status != Leader then n else n.(commit := ScanCommit(n, |n.log|))
  }

  function ResultOf(index: nat, c: Command, outcome: Outcome): CommandResult {
    match outcome
    case Value(v) => Committed(index, c.key, v)
    case UnknownKey => Failed(index, c.key)
  }

  function ApplyOne(n: Node): Node
    requires n.applied < |n.log|
  {
    var command := n.log[n.applied].command;
    var index := n.applied + 1;
    var (values, outcome) := Applied(n.values, command);
    n.(applied := index, values := values, pending := n.pending - {index},
       answered := if index in n.pending then n.answered[n.pending[index] := ResultOf(index, command, outcome)]
                   else n.answered)
  }

  function ApplyCommitted(n: Node): Node
    requires n.commit <= |n.log|
    decreases n.commit - n.applied
  {
    if n.applied < n.commit then ApplyCommitted(ApplyOne(n)) else n
  }

  /** The same loop whatever the commit index; reading past the log throws, with `applied` already advanced. */
  function ApplyUpTo(n: Node): (Node, bool)
    decreases n.commit - n.applied
  {
    if n.applied >= n.commit then (n, true)
    else if n.applied >= |n.log| then (n.(applied := n.applied + 1), false)
    else ApplyUpTo(ApplyOne(n))
  }

  /** The append handler whatever the request; no reply when it ends in an exception. */
  function TryAppend(n: Node, m: AppendRequest): (Node, Option<AppendReply>) {
    if m.term < n.term then
      (n, Some(AppendReply(n.id, m.leader, m.term, m.prevIndex, |m.entries|, n.term, false)))
    else
      var n1 := Recognise(n, m);
      if !PrevMatches(n1.log, m.prevIndex, m.prevTerm) then
        (n1, Some(AppendReply(n1.id, m.leader, m.term, m.prevIndex, |m.entries|, n1.term, false)))
      else
        var (n2, completes) := ApplyUpTo(LearnCommit(MergeInto(n1, m), m.leaderCommit, m.prevIndex + |m.entries|));
        (n2, if completes then Some(AppendReply(n1.id, m.leader, m.term, m.prevIndex, |m.entries|, n1.term, true)) else None)
  }

  function Acknowledge(n: Node, p: Id, index: nat): Node {
    var best := if p in n.matchIndex then Max(n.matchIndex[p], index) else index;
    n.(matchIndex := n.matchIndex[p := best], nextIndex := n.nextIndex[p := best + 1])
  }

  function BackOff(n: Node, p: Id, prevIndex: nat): Node {
    var next := if p in n.nextIndex then n.nextIndex[p] else prevIndex + 1;
    n.(nextIndex := n.nextIndex[p := Max(1, next - 1)])
  }

  function Settle(n: Node): Node
    requires n.commit <= |n.log|
  {
    ScanInRange(n, |n.log|);
    ApplyCommitted(AdvanceCommit(n))
  }

  /** What the callback may rely on: an acknowledged index is one this leader has. */
  predicate ReplyInRange(n: Node, r: AppendReply) {
    CursorsInRange(n) && n.commit <= |n.log| &&
    (r.term <= n.term && n.status == Leader && n.term == r.roundTerm ==>
       (r.success ==> r.prevIndex + r.sentCount <= |n.log|) &&
       r.from in n.nextIndex && r.from in n.matchIndex && n.matchIndex[r.from] <= |n.log|)
  }

  function OnAppendReply(n: Node, r: AppendReply): Node
    requires ReplyInRange(n, r)
  {
    var n0 := n.(inFlight := n.inFlight - {r.from});
    if r.term > n.term then BecomeFollower(n0, r.term)
    else if n.status != Leader || n.term != r.roundTerm then n0
    else if r.success then
      var n2 := Settle(Acknowledge(n0, r.from, r.prevIndex + r.sentCount));
      SettleFrame(Acknowledge(n0, r.from, r.prevIndex + r.sentCount));
      if n2.nextIndex[r.from] <= |n2.log| then ReplicateTo(n2, r.from) else n2
    else ReplicateTo(BackOff(n0, r.from, r.prevIndex), r.from)
  }

  function OnAppendFailure(n: Node, p: Id): Node {
    n.(inFlight := n.inFlight - {p})
  }

  /** A client's command becomes a log entry and its future waits at the entry's index. */
  function Enqueue(n: Node, c: Command): Node {
    n.(log := n.log + [LogEntry(n.term, c)],
       submitted := n.submitted + [c],
       pending := n.pending[|n.log| + 1 := |n.submitted|])
  }

  function Submit(n: Node, c: Command): Node
    requires CursorsInRange(n) && n.commit <= |n.log|
  {
    if n.status != Leader then
      n.(submitted := n.submitted + [c], answered := n.answered[|n.submitted| := NotLeader])
    else Settle(ReplicateToAll(Enqueue(n, c)))
  }

  /** What advancing and applying leave alone. */
  lemma {:induction false} ApplyFrame(n: Node)
    requires n.commit <= |n.log|
    ensures var m := ApplyCommitted(n);
            && m == n.(applied := m.applied, values := m.values, pending := m.pending, answered := m.answered)
            && m.applied == Max(n.applied, n.commit)
    decreases n.commit - n.applied
  {
    if n.applied < n.commit {
      ApplyFrame(ApplyOne(n));
    }
  }

  lemma {:induction false} ScanInRange(n: Node, k: nat)
    requires k <= |n.log|
    ensures n.commit <= ScanCommit(n, k) && (ScanCommit(n, k) == n.commit || ScanCommit(n, k) <= k)
    decreases k
  {
    if k > n.commit && n.log[k - 1].term == n.term {
      ScanInRange(n, k - 1);
    }
  }

  lemma ReplicateToAllFrame(n: Node)
    requires CursorsInRange(n)
    ensures var m := ReplicateToAll(n);
            m == n.(inFlight := m.inFlight, appendRequests := m.appendRequests)
  {
    hide RequestFor;
  }

  lemma BecomeLeaderFrame(n: Node)
    ensures var m := BecomeLeader(n);
            m.id == n.id && m.term == n.term && m.log == n.log && m.status == Leader && m.submitted == n.submitted
            && m.pending == n.pending && m.answered == n.answered && m.commit == n.commit && m.applied == n.applied
  {
    var t := TakeOffice(n);
    assert CursorsInRange(t);
    hide TakeOffice, ReplicateToAll, CursorsInRange;
    ReplicateToAllFrame(t);
    TakeOfficeFrame(n);
  }

  lemma TakeOfficeFrame(n: Node)
    ensures var t := TakeOffice(n);
            t == n.(status := Leader, leaderId := Some(n.id), timerArmed := false, nextIndex := t.nextIndex,
                    matchIndex := t.matchIndex, inFlight := {})
  {
  }

  lemma RequestVotesFrame(n: Node)
    ensures RequestVotes(n) == n.(voteRequests := RequestVotes(n).voteRequests)
  {
  }

  /** A live timer starts the next term and touches neither log nor clients; a cancelled one does nothing. */
  lemma TimeoutFrame(n: Node)
    ensures var m := OnElectionTimeout(n);
            m.id == n.id && m.log == n.log && m.submitted == n.submitted && m.pending == n.pending
            && m.answered == n.answered && m.commit == n.commit && m.applied == n.applied
            && if n.timerArmed then m.term == n.term + 1 else m == n
  {
    hide BecomeLeader, RequestVotes;
    BecomeLeaderFrame(Candidacy(n));
    RequestVotesFrame(Candidacy(n));
  }

  lemma SettleFrame(n: Node)
    requires n.commit <= |n.log|
    ensures var m := Settle(n);
            && m == n.(commit := m.commit, applied := m.applied, values := m.values, pending := m.pending,
                       answered := m.answered)
            && n.commit <= m.commit <= |m.log| && m.applied == Max(n.applied, m.commit)
  {
    ScanInRange(n, |n.log|);
    ApplyFrame(AdvanceCommit(n));
  }

  /** Recognising a leader adopts its term and leaves the log and the commit state alone. */
  lemma RecogniseFrame(n: Node, m: AppendRequest)
    requires m.term >= n.term
    ensures var k := Recognise(n, m);
            && k == n.(term := m.term, votedFor := k.votedFor, status := Follower, pending := k.pending,
                       answered := k.answered, leaderId := k.leaderId, timerArmed := k.timerArmed)
  {
  }

  /** The append handler case by case: a stale term, a failed check, or an acceptance. */
  lemma AppendCases(n: Node, m: AppendRequest)
    requires KeepsCommitted(n, m)
    ensures m.term < n.term ==>
              HandleAppend(n, m) == (n, AppendReply(n.id, m.leader, m.term, m.prevIndex, |m.entries|, n.term, false))
    ensures m.term >= n.term && !PrevMatches(n.log, m.prevIndex, m.prevTerm) ==>
              HandleAppend(n, m).0 == Recognise(n, m) && !HandleAppend(n, m).1.success
    ensures Accepts(n, m) ==>
              var n3 := LearnCommit(MergeInto(Recognise(n, m), m), m.leaderCommit, m.prevIndex + |m.entries|);
              n3.commit <= |n3.log| && HandleAppend(n, m).0 == ApplyCommitted(n3)
    ensures var r := HandleAppend(n, m).1;
            r.from == n.id && r.to == m.leader && r.roundTerm == m.term && r.prevIndex == m.prevIndex
            && r.sentCount == |m.entries| && (r.success ==> Accepts(n, m))
  {
    hide ApplyCommitted, Merge, BecomeFollower;
    if m.term >= n.term {
      RecogniseFrame(n, m);
    }
  }

  /** What accepting a request does to the term and the log. */
  lemma AcceptFrame(n: Node, m: AppendRequest)
    requires KeepsCommitted(n, m) && Accepts(n, m)
    ensures var k := HandleAppend(n, m).0;
            k.id == n.id && k.term == m.term && k.log == Merge(n.log, m.prevIndex, m.entries)
  {
    hide BecomeFollower, Merge, Recognise, ApplyCommitted;
    RecogniseFrame(n, m);
    ApplyFrame(LearnCommit(MergeInto(Recognise(n, m), m), m.leaderCommit, m.prevIndex + |m.entries|));
  }

  /** The loop throws exactly when there is something to apply and the commit index is past the log. */
  lemma {:induction false} ApplyUpToThrows(n: Node)
    ensures ApplyUpTo(n).1 <==> n.applied >= n.commit || n.commit <= |n.log|
    ensures n.commit <= |n.log| ==> ApplyUpTo(n) == (ApplyCommitted(n), true)
    ensures ApplyUpTo(n).0.id == n.id && ApplyUpTo(n).0.term == n.term && ApplyUpTo(n).0.log == n.log
    decreases n.commit - n.applied
  {
    hide Applied, ResultOf;
    if n.applied < n.commit && n.applied < |n.log| {
      ApplyUpToThrows(ApplyOne(n));
    }
  }

  /** The commit index the handler goes on to apply to. */
  function CommitAfter(n: Node, m: AppendRequest): nat {
    LearnCommit(n, m.leaderCommit, m.prevIndex + |m.entries|).commit
  }

  /** What an accepted request is applied to. */
  lemma AcceptedState(n: Node, m: AppendRequest)
    requires Accepts(n, m)
    ensures var k := LearnCommit(MergeInto(Recognise(n, m), m), m.leaderCommit, m.prevIndex + |m.entries|);
            k.applied == n.applied && k.commit == CommitAfter(n, m) && k.log == Merge(n.log, m.prevIndex, m.entries)
  {
    hide BecomeFollower, Merge, Recognise;
    RecogniseFrame(n, m);
  }

  /** Handling a request throws exactly when it is accepted and leaves something to apply that the merged log does not reach. */
  lemma TryAppendThrows(n: Node, m: AppendRequest)
    ensures TryAppend(n, m).1 == None
       <==> Accepts(n, m) && n.applied < CommitAfter(n, m) && |Merge(n.log, m.prevIndex, m.entries)| < CommitAfter(n, m)
  {
    assert Accepts(n, m) ==> m.prevIndex <= |n.log|;
    hide BecomeFollower, Merge, Recognise, ApplyUpTo, LearnCommit, CommitAfter, PrevMatches;
    if m.term >= n.term {
      RecogniseFrame(n, m);
      if Accepts(n, m) {
        AcceptedState(n, m);
        ApplyUpToThrows(LearnCommit(MergeInto(Recognise(n, m), m), m.leaderCommit, m.prevIndex + |m.entries|));
      }
    }
  }

  /** Where the merge keeps what is committed, nothing is thrown and the state and reply are those of `HandleAppend`. */
  lemma TryAppendDefined(n: Node, m: AppendRequest)
    requires KeepsCommitted(n, m)
    ensures TryAppend(n, m) == (HandleAppend(n, m).0, Some(HandleAppend(n, m).1))
  {
    hide BecomeFollower, Merge, Recognise, ApplyUpTo, ApplyCommitted;
    if m.term >= n.term {
      RecogniseFrame(n, m);
      if PrevMatches(n.log, m.prevIndex, m.prevTerm) {
        ApplyUpToThrows(LearnCommit(MergeInto(Recognise(n, m), m), m.leaderCommit, m.prevIndex + |m.entries|));
      }
    }
  }
}
