/** Each whole handler of the event loop keeps the node invariant. */
module RaftHandlers {
  import opened KeyValue
  import opened RaftProtocol
  import opened RaftHistory
  import opened RaftGrowth
  import opened RaftInvariant
  import opened RaftElections
  import opened RaftReplication
  import opened RaftClients

  /** The history after a step that left its node as `n`: consistent, larger, and only about that node. */
  ghost predicate Evolves(h: History, h': History, n: Node) {
    && HistoryOk(h') && Extends(h, h') && OnlyAbout(h, h', n.id)
    && (forall a :: a in h'.acks && a !in h.acks ==> a.term == n.term)
  }

  ghost predicate NewVotesFor(h: History, h': History, candidate: Id) {
    forall t, v :: (t, v) in h'.votes && (t, v) !in h.votes ==> h'.votes[(t, v)].candidate == candidate
  }

  lemma EvolvesItself(h: History, n: Node)
    requires HistoryOk(h)
    ensures Evolves(h, h, n)
  {
    ExtendsItself(h);
  }

  lemma ExtendsTwice(h: History, h1: History, h2: History)
    requires Extends(h, h1) && Extends(h1, h2)
    ensures Extends(h, h2)
  {
    forall t | t in h.elections
      ensures t in h2.elections && ElectionExtends(h.elections[t], h2.elections[t])
    {
      var e, e1, e2 := h.elections[t], h1.elections[t], h2.elections[t];
      assert ElectionExtends(e, e1) && ElectionExtends(e1, e2);
      assert e2.log[..|e.log|] == e2.log[..|e1.log|][..|e.log|];
    }
  }

  lemma EvolvesTwice(h: History, h1: History, h2: History, n1: Node, n2: Node)
    requires Evolves(h, h1, n1) && Evolves(h1, h2, n2) && n1.id == n2.id && n1.term == n2.term
    ensures Evolves(h, h2, n2)
  {
    ExtendsTwice(h, h1, h2);
    forall t | t in h2.elections && !SameElection(h, h2, t)
      ensures h2.elections[t].leader == n2.id
    {
      if SameElection(h1, h2, t) {
        assert !SameElection(h, h1, t);
      }
    }
  }

  lemma MoreDelivered(delivered: set<(Id, nat, Id)>, delivered': set<(Id, nat, Id)>, h: History, n: Node)
    requires NodeOk(delivered, h, n) && delivered <= delivered'
    ensures NodeOk(delivered', h, n)
  {
  }

  lemma BecomeLeaderOk(delivered: set<(Id, nat, Id)>, h: History, n: Node) returns (h': History)
    requires HistoryOk(h) && NodeOk(delivered, h, n)
    requires n.status == Candidate && n.votes >= Majority(|h.ids|)
    ensures Evolves(h, h', n) && h'.votes == h.votes && NodeOk(delivered, h', BecomeLeader(n))
  {
    hide HistoryOk, NodeOk;
    h' := TakeOfficeOk(delivered, h, n);
    ReplicateToAllOk(delivered, h', TakeOffice(n));
  }

  lemma Basics(delivered: set<(Id, nat, Id)>, h: History, n: Node)
    requires NodeOk(delivered, h, n)
    ensures n.id in h.ids && n.peers == h.ids - {n.id} && |n.peers| + 1 == |h.ids|
    ensures n.applied <= n.commit <= |n.log| && CursorsInRange(n) && (n.timerArmed ==> n.status != Leader)
    ensures n.status == Leader ==> n.term in h.elections && h.elections[n.term].leader == n.id
  {
    assert h.ids == n.peers + {n.id};
  }

  lemma StartElectionOk(delivered: set<(Id, nat, Id)>, h: History, n: Node) returns (h': History)
    requires HistoryOk(h) && NodeOk(delivered, h, n)
    ensures Evolves(h, h', OnElectionTimeout(n)) && NewVotesFor(h, h', n.id)
    ensures NodeOk(delivered, h', OnElectionTimeout(n))
  {
    hide HistoryOk, NodeOk;
    Basics(delivered, h, n);
    if n.timerArmed {
      var c := Candidacy(n);
      h' := StandOk(delivered, h, n);
      if 1 >= Majority(|n.peers| + 1) {
        var h1 := h';
        h' := BecomeLeaderOk(delivered, h1, c);
        EvolvesTwice(h, h1, h', c, c);
      } else {
        RequestVotesOk(delivered, h', c);
      }
    } else {
      h' := h;
      EvolvesItself(h, n);
    }
  }

  lemma HandleVoteRequestOk(delivered: set<(Id, nat, Id)>, h: History, n: Node, q: VoteRequest) returns (h': History)
    requires HistoryOk(h) && NodeOk(delivered, h, n) && q.candidate in h.ids && q.candidate != n.id
    ensures var (n', r) := HandleVoteRequest(n, q);
            Evolves(h, h', n') && NodeOk(delivered, h', n') && VoteReplyOk(h', r)
    ensures forall t, v :: (t, v) in h'.votes && (t, v) !in h.votes ==>
              t == q.term && h'.votes[(t, v)].candidate == q.candidate
              && h'.votes[(t, v)].lastIndex == q.lastLogIndex && h'.votes[(t, v)].lastTerm == q.lastLogTerm
  {
    h' := h;
    EvolvesItself(h, n);
    if q.term >= n.term {
      var n1 := if q.term > n.term then BecomeFollower(n, q.term) else n;
      if q.term > n.term {
        BecomeFollowerOk(delivered, h, n, q.term);
      }
      if Grants(n1, q) {
        h' := GrantOk(delivered, h, n1, q);
      }
    }
  }

  lemma OnVoteReplyOk(delivered: set<(Id, nat, Id)>, h: History, n: Node, r: VoteReply)
    returns (h': History)
    requires HistoryOk(h) && NodeOk(delivered, h, n) && VoteReplyOk(h, r) && r.to == n.id
    requires (r.to, r.roundTerm, r.from) !in delivered
    ensures Evolves(h, h', OnVoteReply(n, r)) && h'.votes == h.votes
    ensures NodeOk(delivered + {(r.to, r.roundTerm, r.from)}, h', OnVoteReply(n, r))
  {
    var delivered' := delivered + {(r.to, r.roundTerm, r.from)};
    hide HistoryOk, NodeOk, RaftProtocol.BecomeLeader, BecomeFollower;
    Basics(delivered, h, n);
    if r.term > n.term {
      h' := h;
      EvolvesItself(h, BecomeFollower(n, r.term));
      BecomeFollowerOk(delivered, h, n, r.term);
      MoreDelivered(delivered, delivered', h, BecomeFollower(n, r.term));
    } else if n.status != Candidate || n.term != r.roundTerm || !r.granted {
      h' := h;
      EvolvesItself(h, n);
      MoreDelivered(delivered, delivered', h, n);
    } else {
      var n1, d := n.(votes := n.votes + 1), delivered;
      h', d := CountOneOk(delivered, h, n, r);
      if n1.votes >= Majority(|n.peers| + 1) {
        var h1 := h';
        h' := BecomeLeaderOk(delivered', h1, n1);
        BecomeLeaderFrame(n1);
        EvolvesTwice(h, h1, h', n1, RaftProtocol.BecomeLeader(n1));
      }
    }
  }

  lemma RecogniseOk(delivered: set<(Id, nat, Id)>, h: History, n: Node, m: AppendRequest)
    requires HistoryOk(h) && NodeOk(delivered, h, n) && AppendRequestOk(h, m)
    requires m.leader != n.id && m.term >= n.term
    ensures var n1 := Recognise(n, m);
            NodeOk(delivered, h, n1) && n1.status == Follower && n1.term == m.term && n1.log == n.log && n1.id == n.id
  {
    hide HistoryOk, NodeOk;
    Basics(delivered, h, n);
    var n0 := if m.term > n.term || n.status != Follower then BecomeFollower(n, m.term) else n;
    if m.term > n.term || n.status != Follower {
      BecomeFollowerOk(delivered, h, n, m.term);
    }
    Cosmetic(delivered, h, n0, Recognise(n, m));
  }

  lemma DeliveryDefined(h: History, n: Node, m: AppendRequest)
    requires HistoryOk(h) && LogOk(h, n) && LocalOk(n) && AppendRequestOk(h, m)
    ensures KeepsCommitted(n, m)
  {
    if Accepts(n, m) {
      CommittedSurvivesMerge(h, n, m);
    }
  }

  lemma AcceptedOk(delivered: set<(Id, nat, Id)>, h: History, n: Node, m: AppendRequest, n1: Node, n': Node)
    returns (h': History)
    requires HistoryOk(h) && NodeOk(delivered, h, n) && AppendRequestOk(h, m) && m.leader != n.id
    requires m.term >= n.term && PrevMatches(n.log, m.prevIndex, m.prevTerm)
    requires n1 == Recognise(n, m)
    requires var n3 := LearnCommit(MergeInto(n1, m), m.leaderCommit, m.prevIndex + |m.entries|);
             n3.commit <= |n3.log| && n' == ApplyCommitted(n3)
    ensures Evolves(h, h', n') && NodeOk(delivered, h', n') && h'.votes == h.votes && n1.term == m.term
    ensures Ack(n.id, m.term, m.prevIndex + |m.entries|) in h'.acks
  {
    hide HistoryOk, NodeOk;
    RecogniseOk(delivered, h, n, m);
    h' := MergeOk(delivered, h, n1, m);
    MergedStepOk(delivered, h, h', n1, m);
  }

  lemma HandleAppendOk(delivered: set<(Id, nat, Id)>, h: History, n: Node, m: AppendRequest) returns (h': History)
    requires HistoryOk(h) && NodeOk(delivered, h, n) && AppendRequestOk(h, m) && m.leader != n.id && m.leader in h.ids
    requires KeepsCommitted(n, m)
    ensures var (n', r) := HandleAppend(n, m);
            Evolves(h, h', n') && NodeOk(delivered, h', n') && AppendReplyOk(h', r)
    ensures h'.votes == h.votes
  {
    hide HistoryOk, NodeOk, AppendRequestOk, HandleAppend, Recognise, ApplyCommitted, LearnCommit, KeepsCommitted,
         PrevMatches;
    Basics(delivered, h, n);
    AppendCases(n, m);
    h' := h;
    EvolvesItself(h, n);
    if m.term >= n.term {
      RecogniseOk(delivered, h, n, m);
      EvolvesItself(h, Recognise(n, m));
      if PrevMatches(n.log, m.prevIndex, m.prevTerm) {
        h' := AcceptedOk(delivered, h, n, m, Recognise(n, m), HandleAppend(n, m).0);
      }
    }
  }

  lemma MergedStepOk(delivered: set<(Id, nat, Id)>, h: History, h': History, n1: Node, m: AppendRequest)
    requires AppendRequestOk(h, m) && Extends(h, h') && h'.elections == h.elections
    requires n1.term == m.term && m.prevIndex <= |n1.log|
    requires NodeOk(delivered, h', MergeInto(n1, m)) && SenderPrefix(h, m) <= MergeInto(n1, m).log
    ensures var n3 := LearnCommit(MergeInto(n1, m), m.leaderCommit, m.prevIndex + |m.entries|);
            n3.commit <= |n3.log| && NodeOk(delivered, h', ApplyCommitted(n3))
            && ApplyCommitted(n3).id == n1.id && ApplyCommitted(n3).term == n1.term
  {
    AppendRequestGrows(h, h', m);
    var n2 := MergeInto(n1, m);
    LearnCommitOk(delivered, h', n2, m);
    var n3 := LearnCommit(n2, m.leaderCommit, m.prevIndex + |m.entries|);
    ApplyCommittedOk(delivered, h', n3);
    ApplyFrame(n3);
  }

  lemma OnAppendReplyOk(delivered: set<(Id, nat, Id)>, h: History, n: Node, r: AppendReply)
    requires HistoryOk(h) && NodeOk(delivered, h, n) && AppendReplyOk(h, r) && r.to == n.id
    ensures ReplyInRange(n, r)
    ensures NodeOk(delivered, h, OnAppendReply(n, r))
  {
    hide HistoryOk, NodeOk;
    var n0 := n.(inFlight := n.inFlight - {r.from});
    Basics(delivered, h, n);
    ReplyDefined(delivered, h, n, r);
    Cosmetic(delivered, h, n, n0);
    if r.term > n.term {
      BecomeFollowerOk(delivered, h, n0, r.term);
    } else if n.status == Leader && n.term == r.roundTerm {
      if r.success {
        var index := r.prevIndex + r.sentCount;
        var n1 := Acknowledge(n0, r.from, index);
        AcknowledgeOk(delivered, h, n0, r.from, index);
        SettleOk(delivered, h, n1);
        SettleFrame(n1);
        ReplicateToOk(delivered, h, Settle(n1), r.from);
      } else {
        BackOffOk(delivered, h, n0, r.from, r.prevIndex);
        ReplicateToOk(delivered, h, BackOff(n0, r.from, r.prevIndex), r.from);
      }
    }
  }

  lemma ReplyDefined(delivered: set<(Id, nat, Id)>, h: History, n: Node, r: AppendReply)
    requires HistoryOk(h) && NodeOk(delivered, h, n) && AppendReplyOk(h, r) && r.to == n.id
    ensures ReplyInRange(n, r)
  {
    if n.status == Leader && n.term == r.roundTerm {
      if r.success {
        AckInRange(h, n, r.from, r.prevIndex + r.sentCount);
      }
      if n.matchIndex[r.from] > 0 {
        AckInRange(h, n, r.from, n.matchIndex[r.from]);
      }
    }
  }

  lemma SubmitOk(delivered: set<(Id, nat, Id)>, h: History, n: Node, c: Command) returns (h': History)
    requires HistoryOk(h) && NodeOk(delivered, h, n)
    ensures Evolves(h, h', Submit(n, c)) && h'.votes == h.votes && NodeOk(delivered, h', Submit(n, c))
  {
    hide HistoryOk, NodeOk;
    Basics(delivered, h, n);
    if n.status != Leader {
      h' := h;
      EvolvesItself(h, n);
      RefuseOk(delivered, h, n, c, Submit(n, c));
    } else {
      h' := EnqueueOk(delivered, h, n, c);
      var n1 := Enqueue(n, c);
      ReplicateToAllOk(delivered, h', n1);
      SettleOk(delivered, h', ReplicateToAll(n1));
      SettleFrame(ReplicateToAll(n1));
    }
  }
}
