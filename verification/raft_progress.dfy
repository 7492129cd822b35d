/** What no handler ever takes back: terms, commit and apply indices, and answers given to clients. */
module RaftProgress {
  import opened KeyValue
  import opened RaftProtocol
  import opened RaftHistory
  import opened RaftInvariant
  import opened RaftCluster

  /** An answer once given stays: each future is completed at most once. */
  ghost predicate Progresses(n: Node, n': Node) {
    && n.term <= n'.term && n.commit <= n'.commit && n.applied <= n'.applied
    && (forall f :: f in n.answered ==> f in n'.answered && n'.answered[f] == n.answered[f])
  }

  /** No waiting future has been answered, and none waits at two indices. */
  ghost predicate PendingFresh(n: Node) {
    && (forall k :: k in n.pending ==> n.pending[k] !in n.answered)
    && (forall j, k :: j in n.pending && k in n.pending && n.pending[j] == n.pending[k] ==> j == k)
  }

  lemma FollowerProgress(n: Node, seenTerm: nat)
    requires PendingFresh(n)
    ensures Progresses(n, BecomeFollower(n, seenTerm)) && PendingFresh(BecomeFollower(n, seenTerm))
  {
    var n' := BecomeFollower(n, seenTerm);
    assert forall f :: f in n.answered ==> f !in n.pending.Values;
  }

  lemma ProgressesTwice(n: Node, n1: Node, n2: Node)
    requires Progresses(n, n1) && Progresses(n1, n2)
    ensures Progresses(n, n2)
  {
  }

  lemma {:induction false} ApplyProgress(n: Node)
    requires n.commit <= |n.log| && PendingFresh(n)
    ensures Progresses(n, ApplyCommitted(n))
    decreases n.commit - n.applied
  {
    if n.applied < n.commit {
      ApplyProgress(ApplyOne(n));
    }
  }

  lemma SettleProgress(n: Node)
    requires n.commit <= |n.log| && PendingFresh(n)
    ensures Progresses(n, Settle(n))
  {
    ScanInRange(n, |n.log|);
    ApplyProgress(AdvanceCommit(n));
  }

  lemma OfficeProgress(n: Node)
    ensures Progresses(n, BecomeLeader(n))
  {
  }

  lemma TimeoutProgress(n: Node)
    ensures Progresses(n, OnElectionTimeout(n))
  {
    var c := Candidacy(n);
    assert Progresses(n, c);
    assert Progresses(n, n);
    assert Progresses(n, RequestVotes(c));
    OfficeProgress(c);
    ProgressesTwice(n, c, BecomeLeader(c));
    hide Progresses, Candidacy, RequestVotes, BecomeLeader;
  }

  lemma VoteRequestProgress(n: Node, q: VoteRequest)
    requires PendingFresh(n)
    ensures Progresses(n, HandleVoteRequest(n, q).0)
  {
    hide BecomeFollower, PendingFresh, Grants;
    FollowerProgress(n, q.term);
  }

  lemma VoteReplyProgress(n: Node, v: VoteReply)
    requires PendingFresh(n)
    ensures Progresses(n, OnVoteReply(n, v))
  {
    FollowerProgress(n, v.term);
  }

  /**
   The assignment `min(leaderCommit, idx)` lowers the commit index exactly when the request ends
   below it and claims more; requests a leader builds never claim more than they cover.
   */
  lemma LearnCommitLowersExactly(n: Node, leaderCommit: nat, lastNew: nat)
    ensures LearnCommit(n, leaderCommit, lastNew).commit < n.commit <==> lastNew < n.commit < leaderCommit
    ensures leaderCommit <= lastNew ==> LearnCommit(n, leaderCommit, lastNew).commit == Max(n.commit, leaderCommit)
  {
  }

  lemma RecogniseProgress(n: Node, m: AppendRequest)
    requires PendingFresh(n)
    ensures Progresses(n, Recognise(n, m)) && PendingFresh(Recognise(n, m))
    ensures Recognise(n, m).log == n.log && Recognise(n, m).commit == n.commit && Recognise(n, m).applied == n.applied
  {
    FollowerProgress(n, m.term);
  }

  lemma AcceptProgress(n1: Node, m: AppendRequest, n3: Node)
    requires PendingFresh(n1) && m.prevIndex <= |n1.log| && n1.commit <= |MergeInto(n1, m).log|
    requires m.leaderCommit <= m.prevIndex + |m.entries|
    requires n3 == LearnCommit(MergeInto(n1, m), m.leaderCommit, m.prevIndex + |m.entries|)
    ensures n3.commit <= |n3.log| && Progresses(n1, n3) && PendingFresh(n3)
  {
  }

  lemma AppendProgress(n: Node, m: AppendRequest)
    requires PendingFresh(n) && KeepsCommitted(n, m)
    requires m.leaderCommit <= m.prevIndex + |m.entries|
    ensures Progresses(n, HandleAppend(n, m).0)
  {
    hide Progresses, PendingFresh;
    RecogniseProgress(n, m);
    ProgressesItself(n);
    if Accepts(n, m) {
      var n1 := Recognise(n, m);
      var n3 := LearnCommit(MergeInto(n1, m), m.leaderCommit, m.prevIndex + |m.entries|);
      AcceptProgress(n1, m, n3);
      ApplyProgress(n3);
      ProgressesTwice(n, n1, n3);
      ProgressesTwice(n, n3, ApplyCommitted(n3));
    }
  }

  lemma AppendReplyProgress(n: Node, r: AppendReply)
    requires PendingFresh(n) && ReplyInRange(n, r)
    ensures Progresses(n, OnAppendReply(n, r))
  {
    var n0 := n.(inFlight := n.inFlight - {r.from});
    if r.term > n.term {
      FollowerProgress(n0, r.term);
    } else if n.status == Leader && n.term == r.roundTerm && r.success {
      AcknowledgedProgress(n0, r.from, r.prevIndex + r.sentCount);
    }
  }

  lemma AcknowledgedProgress(n0: Node, p: Id, index: nat)
    requires PendingFresh(n0) && n0.commit <= |n0.log|
    ensures Progresses(n0, Settle(Acknowledge(n0, p, index)))
    ensures Settle(Acknowledge(n0, p, index)).log == n0.log
    ensures Settle(Acknowledge(n0, p, index)).status == n0.status
    ensures Settle(Acknowledge(n0, p, index)).nextIndex == Acknowledge(n0, p, index).nextIndex
  {
    SettleProgress(Acknowledge(n0, p, index));
    SettleFrame(Acknowledge(n0, p, index));
  }

  lemma SubmitProgress(n: Node, c: Command)
    requires PendingFresh(n) && CursorsInRange(n) && n.commit <= |n.log|
    requires forall f :: f in n.answered || f in n.pending.Values ==> f < |n.submitted|
    ensures Progresses(n, Submit(n, c))
  {
    if n.status == Leader {
      var n1 := Enqueue(n, c);
      assert PendingFresh(n1) by {
        assert forall k :: k in n.pending ==> n.pending[k] in n.pending.Values;
      }
      SettleProgress(ReplicateToAll(n1));
    }
  }

  lemma ClientFacts(delivered: set<(Id, nat, Id)>, h: History, n: Node)
    requires NodeOk(delivered, h, n)
    ensures PendingFresh(n) && LocalOk(n)
    ensures forall f :: f in n.answered || f in n.pending.Values ==> f < |n.submitted|
  {
    forall f | f in n.pending.Values
      ensures f < |n.submitted|
    {
      var k :| k in n.pending && n.pending[k] == f;
      assert Waiting(h, n, k);
    }
  }

  lemma ProgressesItself(n: Node)
    ensures Progresses(n, n)
  {
  }

  /** In a reachable cluster no step takes back a term, a commit or apply index, or an answer, at any node. */
  lemma StepProgress(c: Cluster, h: History, s: Step, c': Cluster, i: Id)
    requires Inv(c, h) && Next(c, s, c') && i in c.nodes
    ensures i in c'.nodes && Progresses(c.nodes[i], c'.nodes[i])
  {
    hide Inv, NodeOk, HistoryOk, Progresses, PendingFresh, LocalOk, LogOk, RepliesOk, OnElectionTimeout,
         HandleAppend, OnAppendReply, Submit, AppendRequestOk;
    EveryStepDefined(c, h, s);
    AtNode(c, h, i);
    var n := c.nodes[i];
    ClientFacts(c.delivered, h, n);
    ProgressesItself(n);
    match s
    case ElectionTimeout(j) => AtNode(c, h, j); TimeoutProgress(n); TimeoutKeepsId(c.nodes[j]);
    case Heartbeat(j) => AtNode(c, h, j); HeartbeatProgress(n);
    case DeliverVoteRequest(q) => AtNode(c, h, q.to); VoteRequestProgress(n, q);
    case DeliverVoteReply(v) => AtNode(c, h, v.to); VoteReplyProgress(n, v);
    case DeliverAppend(m) =>
      AtNode(c, h, m.to);
      SentAppend(c, h, m);
      AppendKeepsId(c.nodes[m.to], m);
      if i == m.to {
        AppendProgress(n, m);
      }
    case DeliverAppendReply(r) =>
      AtNode(c, h, r.to);
      AppendReplyKeepsId(c.nodes[r.to], r);
      if i == r.to {
        AppendReplyProgress(n, r);
      }
    case AppendFailed(j, p) => AtNode(c, h, j); FailureProgress(n, p);
    case ClientCommand(j, command) =>
      AtNode(c, h, j);
      SubmitKeepsId(c.nodes[j], command);
      SubmitProgress(n, command);
  }

  lemma HeartbeatProgress(n: Node)
    requires CursorsInRange(n)
    ensures Progresses(n, ReplicateToAll(n)) && ReplicateToAll(n).id == n.id
  {
  }

  lemma FailureProgress(n: Node, p: Id)
    ensures Progresses(n, OnAppendFailure(n, p))
  {
  }
}
