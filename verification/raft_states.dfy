/** What holds of every node between any two events of any run. */
module RaftStates {
  import opened Wrappers
  import opened KeyValue
  import opened RaftLog
  import opened RaftProtocol
  import opened RaftHistory
  import opened RaftInvariant
  import opened RaftMeaning
  import opened RaftCluster
  import opened RaftSafety

  /** Everything committed is applied, and the election timer runs on exactly the nodes that do not lead. */
  predicate Rested(n: Node) {
    n.applied == n.commit && (n.status == Leader <==> !n.timerArmed)
  }

  ghost predicate AllRested(c: Cluster) {
    forall i :: i in c.nodes ==> c.nodes[i].id == i && Rested(c.nodes[i])
  }

  lemma TimeoutRests(n: Node)
    requires Rested(n)
    ensures Rested(OnElectionTimeout(n)) && OnElectionTimeout(n).id == n.id
  {
    hide OnElectionTimeout;
    TimeoutFrame(n);
    if n.timerArmed {
      TimeoutMeans(n);
      if n.peers == {} {
        AloneInOffice(n);
      }
    }
  }

  lemma AloneInOffice(n: Node)
    requires n.timerArmed && n.peers == {}
    ensures !OnElectionTimeout(n).timerArmed
  {
    OfficeMeans(Candidacy(n));
    hide BecomeLeader;
  }

  lemma VoteRequestRests(n: Node, q: VoteRequest)
    requires Rested(n) && q.candidate != n.id && (n.status == Leader ==> n.votedFor == Some(n.id))
    ensures Rested(HandleVoteRequest(n, q).0) && HandleVoteRequest(n, q).0.id == n.id
  {
    VoteMeans(n, q);
    VoteRequestId(n, q);
    hide HandleVoteRequest;
  }

  lemma VoteRequestId(n: Node, q: VoteRequest)
    ensures HandleVoteRequest(n, q).0.id == n.id
    ensures !HandleVoteRequest(n, q).1.granted && q.term == n.term ==> HandleVoteRequest(n, q).0 == n
  {
    hide Grants;
  }

  lemma VoteReplyRests(n: Node, v: VoteReply)
    requires Rested(n)
    ensures Rested(OnVoteReply(n, v)) && OnVoteReply(n, v).id == n.id
  {
    hide BecomeLeader;
    var n1 := n.(votes := n.votes + 1);
    OfficeMeans(n1);
    BecomeLeaderFrame(n1);
  }

  lemma AppendRests(n: Node, m: AppendRequest)
    requires Rested(n) && KeepsCommitted(n, m) && HandleAppend(n, m).0.applied <= HandleAppend(n, m).0.commit
    ensures Rested(HandleAppend(n, m).0)
  {
    AppendMeans(n, m);
    hide HandleAppend;
  }

  lemma ReplyRests(n: Node, r: AppendReply)
    requires Rested(n) && ReplyInRange(n, r) && OnAppendReply(n, r).applied <= OnAppendReply(n, r).commit
    ensures Rested(OnAppendReply(n, r))
  {
    if r.term > n.term || n.status != Leader || r.roundTerm != n.term {
      OtherReplyMeans(n, r);
    } else if r.success {
      SuccessMeans(n, r);
    } else {
      FailureMeans(n, r);
    }
    hide OnAppendReply, ReplyInRange;
  }

  lemma SubmitRests(n: Node, c: Command)
    requires Rested(n) && CursorsInRange(n) && n.commit <= |n.log|
    requires Submit(n, c).applied <= Submit(n, c).commit
    ensures Rested(Submit(n, c))
  {
    hide Settle, ReplicateToAll;
    if n.status == Leader {
      ReplicateToAllFrame(Enqueue(n, c));
      SettleFrame(ReplicateToAll(Enqueue(n, c)));
    }
  }

  /** Where the applied index cannot be ahead of the commit index, which it never is. */
  lemma Ordered(c: Cluster, h: History, i: Id)
    requires Inv(c, h) && i in c.nodes
    ensures c.nodes[i].applied <= c.nodes[i].commit
    ensures c.nodes[i].status == Leader ==> c.nodes[i].votedFor == Some(c.nodes[i].id)
  {
    hide HistoryOk;
    AtNode(c, h, i);
    assert VotingOk(h, c.nodes[i]);
  }

  lemma StepRests(c: Cluster, h: History, s: Step, c': Cluster, h': History)
    requires Inv(c, h) && Next(c, s, c') && AllRested(c) && Inv(c', h')
    ensures AllRested(c')
  {
    hide Inv, Rested, OnElectionTimeout, OnVoteReply, ReplicateToAll, HandleVoteRequest, HandleAppend, OnAppendReply, Submit,
         KeepsCommitted, ReplyInRange, CursorsInRange, NodeOk, HistoryOk, LocalOk, LogOk, RepliesOk;
    EveryStepDefined(c, h, s);
    match s
    case ElectionTimeout(i) => TimeoutRests(c.nodes[i]);
    case Heartbeat(i) => HeartbeatRests(c.nodes[i]);
    case DeliverVoteRequest(q) =>
      SentVoteRequest(c, h, q);
      Ordered(c, h, q.to);
      VoteRequestRests(c.nodes[q.to], q);
    case DeliverVoteReply(v) => VoteReplyRests(c.nodes[v.to], v);
    case DeliverAppend(m) =>
      AppendKeepsId(c.nodes[m.to], m);
      Ordered(c', h', m.to);
      AppendRests(c.nodes[m.to], m);
    case DeliverAppendReply(r) =>
      AppendReplyKeepsId(c.nodes[r.to], r);
      Ordered(c', h', r.to);
      ReplyRests(c.nodes[r.to], r);
    case AppendFailed(i, p) => FailureRests(c.nodes[i], p);
    case ClientCommand(i, command) =>
      AtNode(c, h, i);
      SubmitKeepsId(c.nodes[i], command);
      Ordered(c', h', i);
      SubmitRests(c.nodes[i], command);
  }

  lemma HeartbeatRests(n: Node)
    requires Rested(n) && CursorsInRange(n)
    ensures Rested(ReplicateToAll(n)) && ReplicateToAll(n).id == n.id
  {
    hide ReplicateToAll, CursorsInRange;
    ReplicateToAllFrame(n);
  }

  lemma FailureRests(n: Node, p: Id)
    requires Rested(n)
    ensures Rested(OnAppendFailure(n, p)) && OnAppendFailure(n, p).id == n.id
  {
  }

  /**
   At every moment of every run each node has applied all it has committed, and its election timer runs unless it leads, so a
   node that hears of no leader always stands for election in the end.
   */
  lemma {:induction false} AlwaysRested(ids: set<Id>, trace: seq<Cluster>, steps: seq<Step>, k: nat)
    requires Run(ids, trace, steps) && k < |trace|
    ensures AllRested(trace[k])
    decreases k
  {
    hide Inv, Next, AllRested;
    if k == 0 {
      RestedAtFirst(ids);
    } else {
      AlwaysRested(ids, trace, steps, k - 1);
      var hs := RunHasChronicle(ids, trace, steps);
      assert Next(trace[k - 1], steps[k - 1], trace[k - 1 + 1]);
      StepRests(trace[k - 1], hs[k - 1], steps[k - 1], trace[k], hs[k]);
    }
  }

  lemma RestedAtFirst(ids: set<Id>)
    ensures AllRested(InitialCluster(ids))
  {
  }

  /* ---- The state machine, command by command ---- */

  /** The maps passed through in applying a log: from the empty one, each from the one before by its entry's command. */
  ghost predicate Course(log: Log, maps: seq<Values>) {
    && |maps| == |log| + 1 && maps[0] == map[]
    && forall i :: 0 <= i < |log| ==> LeadsTo(maps[i], log[i].command, maps[i + 1])
  }

  lemma {:induction false} ReplayFollows(log: Log) returns (maps: seq<Values>)
    ensures Course(log, maps) && maps[|log|] == Replay(log)
    decreases |log|
  {
    hide Carries;
    if log == [] {
      maps := [map[]];
    } else {
      var front, last := log[..|log| - 1], |log| - 1;
      var earlier := ReplayFollows(front);
      AppliedCarries(Replay(front), log[last].command);
      maps := earlier + [Replay(log)];
      forall i | 0 <= i < |log|
        ensures LeadsTo(maps[i], log[i].command, maps[i + 1])
      {
        if i < last {
          assert front[i] == log[i] && LeadsTo(earlier[i], front[i].command, earlier[i + 1]);
        } else {
          assert Carries(maps[i], log[i].command, maps[i + 1], Applied(Replay(front), log[last].command).1);
        }
      }
    }
  }

  /** At every moment of every run a node's map is where the commands it has committed lead from the empty map, in order. */
  lemma StateIsCourse(ids: set<Id>, trace: seq<Cluster>, steps: seq<Step>, k: nat, a: Id) returns (maps: seq<Values>)
    requires Run(ids, trace, steps) && At(trace, k, a)
    ensures var n := trace[k].nodes[a];
            n.applied == n.commit <= |n.log| && Course(n.log[..n.commit], maps) && n.values == maps[n.commit]
  {
    hide HistoryOk, NodeOk, Run, Next, Inv, Course, Replay;
    var hs := RunHasChronicle(ids, trace, steps);
    NodeFacts(ids, trace, hs, k, a);
    AlwaysRested(ids, trace, steps, k);
    var n := trace[k].nodes[a];
    maps := ReplayFollows(n.log[..n.commit]);
  }

  /** An answer says what the client's own command did to its key where it stands in the log. */
  lemma AnswersTell(ids: set<Id>, trace: seq<Cluster>, steps: seq<Step>, k: nat, a: Id, f: Future)
    requires Run(ids, trace, steps) && At(trace, k, a)
    requires f in trace[k].nodes[a].answered && trace[k].nodes[a].answered[f] != NotLeader
    ensures var n := trace[k].nodes[a];
            var i := AnswerIndex(n.answered[f]);
            && 1 <= i <= n.commit <= |n.log| && f < |n.submitted| && n.log[i - 1].command == n.submitted[f]
            && Tells(Replay(n.log[..i - 1]), n.submitted[f], Replay(n.log[..i]), i, n.answered[f])
  {
    hide Run, Applied, Tells, ResultOf;
    AnswersTruthful(ids, trace, steps, k, a, f);
    var n := trace[k].nodes[a];
    var i := AnswerIndex(n.answered[f]);
    TellsResult(Replay(n.log[..i - 1]), n.submitted[f], i);
    assert n.log[..i][..i - 1] == n.log[..i - 1] && n.log[..i][i - 1] == n.log[i - 1];
  }
}
