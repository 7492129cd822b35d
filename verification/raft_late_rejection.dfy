/**
 A run of two nodes in which a rejection that comes in again after a success moves the leader's cursor back to what the follower
 is known to hold already: `matchIndex < nextIndex` is not kept (`RaftRepair.AheadExactly` says when it is).
 */
module RaftLateRejection {
  import opened KeyValue
  import opened RaftLog
  import opened RaftProtocol
  import opened RaftMeaning
  import opened RaftInvariant
  import opened RaftCluster
  import opened RaftSafety
  import opened RaftRepair
  import opened RaftFailover

  const PAIR: set<Id> := {1, 2}

  /** One of the two nodes, with nothing committed. */
  ghost predicate Node1Or2(n: Node, id: Id, term: nat, status: Status, log: Log) {
    && n.id == id && id in PAIR && n.peers == PAIR - {id} && |n.peers| == 1 && n.term == term && n.status == status
    && n.log == log && n.commit == 0 && n.applied == 0 && (status != Leader ==> n.timerArmed)
  }

  ghost predicate Both(c: Cluster, term1: nat, status1: Status, log1: Log, term2: nat, status2: Status, log2: Log) {
    && c.nodes.Keys == PAIR && Node1Or2(c.nodes[1], 1, term1, status1, log1)
    && Node1Or2(c.nodes[2], 2, term2, status2, log2)
  }

  lemma Alone(i: Id)
    requires i in PAIR
    ensures |PAIR - {i}| == 1
  {
    assert PAIR - {i} == {3 - i};
  }

  /** What node i asks node j when it stands in `term`. */
  function Asks(term: nat, i: Id, j: Id, log: Log): VoteRequest {
    VoteRequest(term, i, j, |log|, LastTerm(log))
  }

  /** Standing for election. */
  lemma Stand(n: Node, id: Id, term: nat, status: Status, log: Log)
    requires Node1Or2(n, id, term, status, log) && status != Leader
    ensures Node1Or2(OnElectionTimeout(n), id, term + 1, Candidate, log) && OnElectionTimeout(n).votes == 1
    ensures OnElectionTimeout(n).pending == n.pending
    ensures Asks(term + 1, id, 3 - id, log) in OnElectionTimeout(n).voteRequests
  {
    TimeoutMeans(n);
    TimeoutFrame(n);
    StandFrame(n);
    hide OnElectionTimeout;
    assert 3 - id in n.peers;
    var q := Asks(term + 1, id, 3 - id, log);
    assert q.to in n.peers && q == Ballot(n, n.term + 1, q.to);
  }

  lemma StandFrame(n: Node)
    requires n.peers != {}
    ensures OnElectionTimeout(n).peers == n.peers
  {
    hide ReplicateToAll, TakeOffice;
    BecomeLeaderVotes(Candidacy(n));
    hide BecomeLeader;
  }

  /** Being asked in a later term: a vote if the candidate is not behind, and stepping down in any case. */
  lemma Answer(n: Node, id: Id, term: nat, status: Status, log: Log, q: VoteRequest)
    requires Node1Or2(n, id, term, status, log) && q.term > term
    ensures var (m, v) := HandleVoteRequest(n, q);
            && Node1Or2(m, id, q.term, Follower, log)
            && v == VoteReply(id, q.candidate, q.term, q.term, !Behind(log, q.lastLogTerm, q.lastLogIndex))
  {
    VoteMeans(n, q);
    VoteFrame(n, q);
    hide HandleVoteRequest;
  }

  lemma VoteFrame(n: Node, q: VoteRequest)
    ensures HandleVoteRequest(n, q).0.peers == n.peers && HandleVoteRequest(n, q).0.id == n.id
  {
    hide Grants;
  }

  /* ---- Node 1 leads term 1 with one entry, and loses office ---- */

  ghost predicate S0(c: Cluster) {
    Both(c, 0, Follower, [], 0, Follower, []) && c.delivered == {}
  }

  ghost predicate S1(c: Cluster) {
    && Both(c, 1, Candidate, [], 0, Follower, []) && c.nodes[1].votes == 1 && c.delivered == {}
    && Asks(1, 1, 2, []) in c.nodes[1].voteRequests
  }

  ghost predicate S2(c: Cluster) {
    && Both(c, 1, Candidate, [], 1, Follower, []) && c.nodes[1].votes == 1 && c.delivered == {}
    && VoteReply(2, 1, 1, 1, true) in c.voteReplies
  }

  ghost predicate S3(c: Cluster, log: Log) {
    Both(c, 1, Leader, log, 1, Follower, []) && Seated(c.nodes[1], 0) && c.delivered == {(1, 1, 2)}
  }

  lemma Step1(c: Cluster)
    requires S0(c)
    ensures Enabled(c, ElectionTimeout(1)) && S1(After(c, ElectionTimeout(1)))
  {
    hide OnElectionTimeout;
    Stand(c.nodes[1], 1, 0, Follower, []);
  }

  lemma Step2(c: Cluster)
    requires S1(c)
    ensures Enabled(c, DeliverVoteRequest(Asks(1, 1, 2, []))) && S2(After(c, DeliverVoteRequest(Asks(1, 1, 2, []))))
  {
    hide HandleVoteRequest;
    Answer(c.nodes[2], 2, 0, Follower, [], Asks(1, 1, 2, []));
  }

  lemma Step3(c: Cluster)
    requires S2(c)
    ensures Enabled(c, DeliverVoteReply(VoteReply(2, 1, 1, 1, true)))
    ensures S3(After(c, DeliverVoteReply(VoteReply(2, 1, 1, 1, true))), [])
  {
    hide OnVoteReply;
    Elect(c.nodes[1], VoteReply(2, 1, 1, 1, true));
    Wins(c.nodes[1], VoteReply(2, 1, 1, 1, true));
  }

  /** What winning leaves as it was. */
  lemma Elect(n: Node, v: VoteReply)
    requires n.status == Candidate && n.votes == 1 && |n.peers| == 1 && v.granted && v.roundTerm == n.term && v.term <= n.term
    ensures var m := OnVoteReply(n, v);
            && m.commit == n.commit && m.applied == n.applied
            && (forall p :: p in n.peers ==> Announcement(n, p) in m.appendRequests)
  {
    var n1 := n.(votes := n.votes + 1);
    OfficeMeans(n1);
    BecomeLeaderFrame(n1);
    hide BecomeLeader;
    forall p | p in n.peers
      ensures Announcement(n, p) in OnVoteReply(n, v).appendRequests
    {
      var m := Announcement(n1, p);
      assert m.to in n1.peers && m == Announcement(n1, m.to) && m == Announcement(n, p);
    }
  }

  lemma Step4(c: Cluster, a: Command)
    requires S3(c, [])
    ensures Enabled(c, ClientCommand(1, a)) && Defined(c, ClientCommand(1, a))
    ensures S3(After(c, ClientCommand(1, a)), [LogEntry(1, a)])
  {
    hide Submit;
    CommandWaits(c.nodes[1], 0, a);
  }

  ghost predicate S5(c: Cluster, e: LogEntry) {
    && Both(c, 1, Leader, [e], 2, Candidate, []) && c.delivered == {(1, 1, 2)}
    && Asks(2, 2, 1, []) in c.nodes[2].voteRequests
  }

  ghost predicate S6(c: Cluster, e: LogEntry) {
    Both(c, 2, Follower, [e], 2, Candidate, []) && c.delivered == {(1, 1, 2)}
  }

  lemma Step5(c: Cluster, e: LogEntry)
    requires S3(c, [e])
    ensures Enabled(c, ElectionTimeout(2)) && S5(After(c, ElectionTimeout(2)), e)
  {
    hide OnElectionTimeout;
    Stand(c.nodes[2], 2, 1, Follower, []);
  }

  lemma Step6(c: Cluster, e: LogEntry)
    requires S5(c, e)
    ensures Enabled(c, DeliverVoteRequest(Asks(2, 2, 1, []))) && S6(After(c, DeliverVoteRequest(Asks(2, 2, 1, []))), e)
  {
    hide HandleVoteRequest;
    Answer(c.nodes[1], 1, 1, Leader, [e], Asks(2, 2, 1, []));
  }

  /* ---- It is elected again, with a cursor behind its entry ---- */

  ghost predicate S7(c: Cluster, e: LogEntry) {
    && Both(c, 3, Candidate, [e], 2, Candidate, []) && c.nodes[1].votes == 1 && c.delivered == {(1, 1, 2)}
    && Asks(3, 1, 2, [e]) in c.nodes[1].voteRequests
  }

  ghost predicate S8(c: Cluster, e: LogEntry) {
    && Both(c, 3, Candidate, [e], 3, Follower, []) && c.nodes[1].votes == 1 && c.delivered == {(1, 1, 2)}
    && VoteReply(2, 1, 3, 3, true) in c.voteReplies
  }

  /** Node 1 leads term 3, with this much recorded of node 2. */
  ghost predicate Leading(c: Cluster, e: LogEntry, log2: Log, next: nat, held: nat) {
    && Both(c, 3, Leader, [e], 3, Follower, log2)
    && 2 in c.nodes[1].nextIndex && c.nodes[1].nextIndex[2] == next
    && 2 in c.nodes[1].matchIndex && c.nodes[1].matchIndex[2] == held
  }

  lemma Step7(c: Cluster, e: LogEntry)
    requires S6(c, e)
    ensures Enabled(c, ElectionTimeout(1)) && S7(After(c, ElectionTimeout(1)), e)
  {
    hide OnElectionTimeout;
    Stand(c.nodes[1], 1, 2, Follower, [e]);
  }

  lemma Step8(c: Cluster, e: LogEntry)
    requires S7(c, e)
    ensures Enabled(c, DeliverVoteRequest(Asks(3, 1, 2, [e]))) && S8(After(c, DeliverVoteRequest(Asks(3, 1, 2, [e]))), e)
  {
    hide HandleVoteRequest;
    Answer(c.nodes[2], 2, 2, Candidate, [], Asks(3, 1, 2, [e]));
  }

  lemma Step9(c: Cluster, e: LogEntry)
    requires S8(c, e)
    ensures Enabled(c, DeliverVoteReply(VoteReply(2, 1, 3, 3, true)))
    ensures var c' := After(c, DeliverVoteReply(VoteReply(2, 1, 3, 3, true)));
            Leading(c', e, [], 2, 0) && AppendRequest(3, 1, 2, 1, e.term, [], 0) in c'.nodes[1].appendRequests
  {
    hide OnVoteReply;
    var v := VoteReply(2, 1, 3, 3, true);
    Elect(c.nodes[1], v);
    Wins(c.nodes[1], v);
    assert 2 in c.nodes[1].peers && Announcement(c.nodes[1], 2) == AppendRequest(3, 1, 2, 1, e.term, [], 0);
  }

  /* ---- The follower rejects, accepts, and the rejection comes in again ---- */

  const REJECTION := AppendReply(2, 1, 3, 1, 0, 3, false)

  const SUCCESS := AppendReply(2, 1, 3, 0, 1, 3, true)

  lemma FollowerFrame(n: Node, m: AppendRequest)
    requires KeepsCommitted(n, m)
    ensures HandleAppend(n, m).0.peers == n.peers && HandleAppend(n, m).0.id == n.id
  {
    hide HandleAppend, ApplyCommitted, Merge, Recognise, LearnCommit, KeepsCommitted;
    AppendCases(n, m);
    if m.term >= n.term {
      FollowsMeans(n, m);
      if Accepts(n, m) {
        LearnFrame(MergeInto(Recognise(n, m), m), m.leaderCommit, m.prevIndex + |m.entries|);
        ApplyFrame(LearnCommit(MergeInto(Recognise(n, m), m), m.leaderCommit, m.prevIndex + |m.entries|));
      }
    }
  }

  lemma LearnFrame(n: Node, leaderCommit: nat, lastNew: nat)
    ensures LearnCommit(n, leaderCommit, lastNew) == n.(commit := LearnCommit(n, leaderCommit, lastNew).commit)
  {
  }

  lemma Step10(c: Cluster, e: LogEntry)
    requires Leading(c, e, [], 2, 0) && AppendRequest(3, 1, 2, 1, e.term, [], 0) in c.nodes[1].appendRequests
    ensures var s := DeliverAppend(AppendRequest(3, 1, 2, 1, e.term, [], 0));
            && Enabled(c, s) && (Defined(c, s) ==> Leading(After(c, s), e, [], 2, 0) && REJECTION in After(c, s).appendReplies)
  {
    hide HandleAppend, KeepsCommitted;
    var m := AppendRequest(3, 1, 2, 1, e.term, [], 0);
    if KeepsCommitted(c.nodes[2], m) {
      AppendMeans(c.nodes[2], m);
      FollowerFrame(c.nodes[2], m);
    }
  }

  /** A rejection delivered to node 1. */
  lemma Rejected(c: Cluster, e: LogEntry, log2: Log, held: nat)
    requires Leading(c, e, log2, 2, held) && REJECTION in c.appendReplies
    ensures var s := DeliverAppendReply(REJECTION);
            && Enabled(c, s)
            && (Defined(c, s) ==> Leading(After(c, s), e, log2, 1, held) && REJECTION in After(c, s).appendReplies
                                  && AppendRequest(3, 1, 2, 0, 0, [e], 0) in After(c, s).nodes[1].appendRequests)
  {
    hide OnAppendReply, ReplyInRange;
    var n := c.nodes[1];
    if ReplyInRange(n, REJECTION) {
      FailureMeans(n, REJECTION);
      ReplyFrame(n, REJECTION);
      assert IsRequestFor(OnAppendReply(n, REJECTION), 2, AppendRequest(3, 1, 2, 0, 0, [e], 0));
    }
  }

  lemma ReplyFrame(n: Node, r: AppendReply)
    requires ReplyInRange(n, r) && r.term <= n.term
    ensures OnAppendReply(n, r).peers == n.peers && OnAppendReply(n, r).id == n.id
  {
    hide Settle;
    if n.status == Leader && n.term == r.roundTerm && r.success {
      SettleFrame(Acknowledge(n.(inFlight := n.inFlight - {r.from}), r.from, r.prevIndex + r.sentCount));
    }
  }

  lemma Step12(c: Cluster, e: LogEntry)
    requires Leading(c, e, [], 1, 0) && AppendRequest(3, 1, 2, 0, 0, [e], 0) in c.nodes[1].appendRequests
    requires REJECTION in c.appendReplies
    ensures var s := DeliverAppend(AppendRequest(3, 1, 2, 0, 0, [e], 0));
            && Enabled(c, s)
            && (Defined(c, s) ==> Leading(After(c, s), e, [e], 1, 0) && SUCCESS in After(c, s).appendReplies
                                  && REJECTION in After(c, s).appendReplies)
  {
    hide HandleAppend, KeepsCommitted;
    var m := AppendRequest(3, 1, 2, 0, 0, [e], 0);
    TakesFirst(c.nodes[2], m, e);
    AppendMeans(c.nodes[2], m);
    FollowerFrame(c.nodes[2], m);
  }

  lemma Step13(c: Cluster, e: LogEntry)
    requires Leading(c, e, [e], 1, 0) && SUCCESS in c.appendReplies && REJECTION in c.appendReplies && e.term == 1
    ensures var s := DeliverAppendReply(SUCCESS);
            && Enabled(c, s) && (Defined(c, s) ==> Leading(After(c, s), e, [e], 2, 1) && REJECTION in After(c, s).appendReplies)
  {
    hide OnAppendReply, ReplyInRange;
    var n := c.nodes[1];
    if ReplyInRange(n, SUCCESS) {
      SuccessMeans(n, SUCCESS);
      ReplyFrame(n, SUCCESS);
      EarlierTermWaits(n, SUCCESS);
    }
  }

  /** An entry of an earlier term is not committed by counting. */
  lemma EarlierTermWaits(n: Node, r: AppendReply)
    requires ReplyInRange(n, r) && n.status == Leader && r.term <= n.term == r.roundTerm && r.success
    requires |n.log| == 1 && n.log[0].term < n.term && n.commit == 0 && n.applied == 0
    ensures OnAppendReply(n, r).commit == 0 && OnAppendReply(n, r).applied == 0
  {
    var n1 := Acknowledge(n.(inFlight := n.inFlight - {r.from}), r.from, r.prevIndex + r.sentCount);
    SettleFrame(n1);
    assert ScanCommit(n1, 1) == 0;
  }

  /* ---- The run ---- */

  lemma Begins()
    ensures Run(PAIR, [InitialCluster(PAIR)], []) && S0(InitialCluster(PAIR))
  {
    Alone(1);
    Alone(2);
  }

  /** Node 1 is elected, takes a command and is deposed. */
  lemma FirstTerm(a: Command) returns (trace: seq<Cluster>, steps: seq<Step>)
    ensures Run(PAIR, trace, steps) && |steps| == 6 && S6(trace[|trace| - 1], LogEntry(1, a))
  {
    hide Run, Enabled, Defined, After, S0, S1, S2, S3, S5, S6;
    var c := InitialCluster(PAIR);
    trace, steps := [c], [];
    Begins();
    Step1(c);
    c := TakeStep(PAIR, trace, steps, ElectionTimeout(1));
    trace, steps := trace + [c], steps + [ElectionTimeout(1)];
    Step2(c);
    c := TakeStep(PAIR, trace, steps, DeliverVoteRequest(Asks(1, 1, 2, [])));
    trace, steps := trace + [c], steps + [DeliverVoteRequest(Asks(1, 1, 2, []))];
    Step3(c);
    c := TakeStep(PAIR, trace, steps, DeliverVoteReply(VoteReply(2, 1, 1, 1, true)));
    trace, steps := trace + [c], steps + [DeliverVoteReply(VoteReply(2, 1, 1, 1, true))];
    Step4(c, a);
    c := TakeStep(PAIR, trace, steps, ClientCommand(1, a));
    trace, steps := trace + [c], steps + [ClientCommand(1, a)];
    Step5(c, LogEntry(1, a));
    c := TakeStep(PAIR, trace, steps, ElectionTimeout(2));
    trace, steps := trace + [c], steps + [ElectionTimeout(2)];
    Step6(c, LogEntry(1, a));
    c := TakeStep(PAIR, trace, steps, DeliverVoteRequest(Asks(2, 2, 1, [])));
    trace, steps := trace + [c], steps + [DeliverVoteRequest(Asks(2, 2, 1, []))];
  }

  /** Node 1 is elected again and announces itself. */
  lemma ThirdTerm(a: Command) returns (trace: seq<Cluster>, steps: seq<Step>)
    ensures Run(PAIR, trace, steps) && |steps| == 9 && Leading(trace[|trace| - 1], LogEntry(1, a), [], 2, 0)
    ensures AppendRequest(3, 1, 2, 1, 1, [], 0) in trace[|trace| - 1].nodes[1].appendRequests
  {
    hide Run, Enabled, Defined, After, S6, S7, S8;
    var e := LogEntry(1, a);
    trace, steps := FirstTerm(a);
    RunIsNotEmpty(trace, steps);
    var c := trace[|trace| - 1];
    Step7(c, e);
    c := TakeStep(PAIR, trace, steps, ElectionTimeout(1));
    trace, steps := trace + [c], steps + [ElectionTimeout(1)];
    Step8(c, e);
    c := TakeStep(PAIR, trace, steps, DeliverVoteRequest(Asks(3, 1, 2, [e])));
    trace, steps := trace + [c], steps + [DeliverVoteRequest(Asks(3, 1, 2, [e]))];
    Step9(c, e);
    c := TakeStep(PAIR, trace, steps, DeliverVoteReply(VoteReply(2, 1, 3, 3, true)));
    trace, steps := trace + [c], steps + [DeliverVoteReply(VoteReply(2, 1, 3, 3, true))];
  }

  lemma RunIsNotEmpty(trace: seq<Cluster>, steps: seq<Step>)
    requires Run(PAIR, trace, steps)
    ensures |trace| == |steps| + 1
  {
  }

  /**
   The leader of term 3 has node 2's success, and its cursor one behind that entry, until a rejection from before the success is
   delivered once more: then the cursor is at the entry node 2 is known to hold.
   */
  lemma RejectionAfterSuccess(a: Command) returns (trace: seq<Cluster>, steps: seq<Step>)
    ensures Run(PAIR, trace, steps) && |steps| == 14 && |trace| == 15
    ensures steps[10] == steps[13] == DeliverAppendReply(REJECTION) && steps[12] == DeliverAppendReply(SUCCESS)
    ensures Ahead(trace[13], 1, 2) && !Ahead(trace[14], 1, 2)
    ensures var n := trace[14].nodes;
            && 1 in n && n[1].status == Leader && n[1].term == 3 && 2 in n[1].nextIndex && 2 in n[1].matchIndex
            && n[1].nextIndex[2] == n[1].matchIndex[2] == 1
  {
    hide Run, Enabled, Defined, After;
    var e := LogEntry(1, a);
    trace, steps := ThirdTerm(a);
    RunIsNotEmpty(trace, steps);
    var c9 := trace[|trace| - 1];
    hide Both;
    Step10(c9, e);
    var m := DeliverAppend(AppendRequest(3, 1, 2, 1, 1, [], 0));
    var c10 := TakeStep(PAIR, trace, steps, m);
    trace, steps := trace + [c10], steps + [m];
    Rejected(c10, e, [], 0);
    var c11 := TakeStep(PAIR, trace, steps, DeliverAppendReply(REJECTION));
    trace, steps := trace + [c11], steps + [DeliverAppendReply(REJECTION)];
    Step12(c11, e);
    var m' := DeliverAppend(AppendRequest(3, 1, 2, 0, 0, [e], 0));
    var c12 := TakeStep(PAIR, trace, steps, m');
    trace, steps := trace + [c12], steps + [m'];
    Step13(c12, e);
    var c13 := TakeStep(PAIR, trace, steps, DeliverAppendReply(SUCCESS));
    trace, steps := trace + [c13], steps + [DeliverAppendReply(SUCCESS)];
    Rejected(c13, e, [e], 1);
    var c14 := TakeStep(PAIR, trace, steps, DeliverAppendReply(REJECTION));
    trace, steps := trace + [c14], steps + [DeliverAppendReply(REJECTION)];
    RunIsNotEmpty(trace, steps);
    assert trace[13] == c13 && trace[14] == c14;
    LeaderRow(c13, e, [e], 2, 1);
    LeaderRow(c14, e, [e], 1, 1);
  }

  lemma LeaderRow(c: Cluster, e: LogEntry, log2: Log, next: nat, held: nat)
    requires Leading(c, e, log2, next, held)
    ensures 1 in c.nodes && c.nodes[1].status == Leader && c.nodes[1].term == 3
    ensures Ahead(c, 1, 2) <==> held < next
  {
  }
}
