/** A leader's client commands: appending an entry keeps the node invariant. */
module RaftClients {
  import opened KeyValue
  import opened RaftLog
  import opened RaftProtocol
  import opened RaftHistory
  import opened RaftGrowth
  import opened RaftInvariant
  import opened RaftElections

  lemma LongerElection(h: History, h': History, n: Node, entry: LogEntry, e: Election, e': Election, a: Ack)
    requires n.term in h.elections && n.term in h'.elections
    requires ElectionOk(h, n.term) && TermsOk(h, n) && Extends(h, h')
    requires e == h.elections[n.term] && e.log == n.log && entry.term == n.term
    requires e' == h'.elections[n.term] && e' == e.(log := n.log + [entry])
    requires a in h'.acks && a == Ack(e.leader, n.term, |n.log| + 1)
    ensures ElectionOk(h', n.term) && Grounded(h', e'.log)
  {
    GroundedGrows(h, h', n.log);
    forall k: nat | k < |e'.log|
      ensures GroundedAt(h', e'.log, k)
    {
      if k < |n.log| {
        assert GroundedAt(h', n.log, k);
        assert e'.log[..k + 1] == n.log[..k + 1];
      }
    }
    forall v | v in e'.quorum
      ensures Supports(h', n.term, v)
    {
      assert Supports(h, n.term, v);
      assert e'.log[..e.base] == e.log[..e.base];
    }
  }

  lemma EnqueueHistory(h: History, n: Node, entry: LogEntry, a: Ack, e': Election) returns (h': History)
    requires HistoryOk(h) && LogOk(h, n) && OfficeOk(h, n) && VotingOk(h, n) && n.id in h.ids && n.status == Leader
    requires entry.term == n.term && a == Ack(n.id, n.term, |n.log| + 1)
    requires e' == h.elections[n.term].(log := n.log + [entry])
    ensures h' == h.(elections := h.elections[n.term := e'], acks := h.acks + {a})
    ensures HistoryOk(h') && Extends(h, h') && OnlyAbout(h, h', n.id) && Grounded(h', e'.log)
  {
    var e := h.elections[n.term];
    assert e.log == n.log;
    h' := h.(elections := h.elections[n.term := e'], acks := h.acks + {a});
    EnqueueExtends(h, h', n, e', a);
    LongerElection(h, h', n, entry, e, e', a);
    NoLaterVotes(h, h', n, a);
    HistoryGrows(h, h');
  }

  lemma EnqueueExtends(h: History, h': History, n: Node, e': Election, a: Ack)
    requires n.term in h.elections && ElectionExtends(h.elections[n.term], e') && e'.leader == n.id && a.node == n.id
    requires h' == h.(elections := h.elections[n.term := e'], acks := h.acks + {a})
    ensures Extends(h, h') && OnlyAbout(h, h', n.id)
  {
    forall t | t in h.elections
      ensures ElectionExtends(h.elections[t], h'.elections[t])
    {
    }
  }

  lemma EnqueuedLog(h: History, h': History, n: Node, n': Node, entry: LogEntry, a': Ack)
    requires LogOk(h, n) && Extends(h, h') && n.status == Leader && n.commit <= |n.log|
    requires n'.id == n.id && n'.term == n.term && n'.commit == n.commit && n'.status == Leader
    requires n'.log == n.log + [entry] && entry.term == n.term && Grounded(h', n'.log)
    requires n.term in h'.elections && h'.elections[n.term].log == n'.log
    requires h'.acks == h.acks + {a'} && a'.term == n.term && a'.upto == |n'.log|
    ensures LogOk(h', n')
  {
    CommitGrows(h, h', n.log, n.commit, n.term, n'.log, n.term);
    forall a | a in h'.acks && a.node == n'.id
      ensures a.term <= n'.term && Kept(h', n'.log, a.term, a.upto, n'.term)
    {
      forall j: nat | j <= a.upto
        ensures KeptAt(h', n'.log, a.term, j, n'.term)
      {
        if a in h.acks {
          KeptGrows(h, h', n.log, a.term, a.upto, n.term, n.term);
          assert KeptAt(h', n.log, a.term, j, n.term);
          if Retains(n.log, h'.elections[a.term].log, j) {
            assert n'.log[..j] == n.log[..j];
          }
        }
      }
    }
  }

  lemma EnqueuedAnswers(h: History, n: Node, n': Node, entry: LogEntry)
    requires AnswersOk(h, n) && n.applied <= |n.log|
    requires n'.id == n.id && n'.answered == n.answered && n'.applied == n.applied
    requires n'.log == n.log + [entry] && n'.submitted == n.submitted + [entry.command]
    ensures AnswersOk(h, n')
  {
    forall f | f in n'.answered
      ensures f < |n'.submitted| && Truthful(h, n', f)
    {
      assert Truthful(h, n, f);
      if n.answered[f] != NotLeader {
        var i := AnswerIndex(n.answered[f]);
        assert n'.log[..i - 1] == n.log[..i - 1];
      }
    }
  }

  lemma EnqueuedWaiters(h: History, n: Node, n': Node, entry: LogEntry)
    requires WaitersOk(h, n) && n.applied <= |n.log| && n.status == Leader && n'.status == Leader
    requires n.term in h.elections && h.elections[n.term].leader == n.id && entry.term == n.term
    requires n'.id == n.id && n'.applied == n.applied && n'.pending == n.pending[|n.log| + 1 := |n.submitted|]
    requires n'.log == n.log + [entry] && n'.submitted == n.submitted + [entry.command]
    ensures WaitersOk(h, n')
  {
    forall k | k in n'.pending
      ensures Waiting(h, n', k)
    {
      if k != |n.log| + 1 {
        assert Waiting(h, n, k);
      }
    }
    forall j, k | j in n'.pending && k in n'.pending && n'.pending[j] == n'.pending[k]
      ensures j == k
    {
      assert j in n.pending ==> Waiting(h, n, j);
      assert k in n.pending ==> Waiting(h, n, k);
    }
  }

  lemma EnqueuedAccountedFor(h: History, n: Node, n': Node, c: Command)
    requires WaitersOk(h, n) && AnswersOk(h, n) && AccountedFor(n)
    requires n'.answered == n.answered && n'.submitted == n.submitted + [c]
    requires n'.pending == n.pending[|n.log| + 1 := |n.submitted|]
    ensures AccountedFor(n')
  {
    forall f: nat | f < |n'.submitted|
      ensures f in n'.answered || f in n'.pending.Values
    {
      if f in n.pending.Values {
        var k :| k in n.pending && n.pending[k] == f;
        assert Waiting(h, n, k);
        assert k in n'.pending && n'.pending[k] == f;
      } else if f == |n.submitted| {
        assert |n.log| + 1 in n'.pending;
      }
    }
  }

  lemma EnqueuedClients(h: History, h': History, n: Node, n': Node, entry: LogEntry)
    requires Extends(h, h') && ClientsOk(h, n) && n.applied <= |n.log| && n.status == Leader
    requires n.term in h.elections && h.elections[n.term].leader == n.id && entry.term == n.term
    requires n' == Enqueue(n, entry.command)
    ensures ClientsOk(h', n')
  {
    EnqueuedAnswers(h, n, n', entry);
    EnqueuedWaiters(h, n, n', entry);
    EnqueuedAccountedFor(h, n, n', entry.command);
    ClientsGrow(h, h', n');
  }

  lemma EnqueuedRest(h: History, h': History, n: Node, n': Node, entry: LogEntry, a': Ack)
    requires RestOk(h, n) && Extends(h, h') && n.status == Leader
    requires n.term in h.elections && h.elections[n.term].leader == n.id && entry.term == n.term
    requires n.term in h'.elections && h'.elections[n.term].log == n'.log && Grounded(h', n'.log)
    requires n' == Enqueue(n, entry.command)
    requires h'.acks == h.acks + {a'} && a'.term == n.term && a'.upto == |n'.log|
    ensures RestOk(h', n')
  {
    assert n'.log == n.log + [entry];
    EnqueuedLog(h, h', n, n', entry, a');
    EnqueuedClients(h, h', n, n', entry);
    SentGrows(h, h', n);
    EnqueuedWire(h', n, n');
    assert n'.log[..n.applied] == n.log[..n.applied];
  }

  lemma LeaderOf(h: History, n: Node)
    requires OfficeOk(h, n) && n.status == Leader
    ensures n.term in h.elections && h.elections[n.term].leader == n.id && h.elections[n.term].log == n.log
  {
  }

  lemma EnqueueOk(delivered: set<(Id, nat, Id)>, h: History, n: Node, c: Command) returns (h': History)
    requires HistoryOk(h) && NodeOk(delivered, h, n) && n.status == Leader
    ensures HistoryOk(h') && Extends(h, h') && OnlyAbout(h, h', n.id) && h'.votes == h.votes
    ensures forall a :: a in h'.acks && a !in h.acks ==> a.term == n.term
    ensures NodeOk(delivered, h', Enqueue(n, c))
  {
    hide HistoryOk, NodeOk, RestOk, BallotOk, LogOk, LocalOk, VotingOk, OfficeOk;
    Parts(delivered, h, n);
    LeaderOf(h, n);
    var entry, a, n' := LogEntry(n.term, c), Ack(n.id, n.term, |n.log| + 1), Enqueue(n, c);
    var e' := h.elections[n.term].(log := n.log + [entry]);
    h' := EnqueueHistory(h, n, entry, a, e');
    EnqueuedRest(h, h', n, n', entry, a);
    EnqueuedBallot(delivered, h, h', n, n', e');
    Joined(delivered, h', n');
  }

  lemma EnqueuedWire(h': History, n: Node, n': Node)
    requires SentOk(h', n) && n.status == Leader && n'.status == Leader
    requires n'.id == n.id && n'.peers == n.peers && n'.term == n.term
    requires n'.voteRequests == n.voteRequests && n'.appendRequests == n.appendRequests
    ensures SentOk(h', n')
  {
    forall q | q in n'.voteRequests
      ensures VoteRequestOk(n', q)
    {
      assert VoteRequestOk(n, q);
    }
  }

  lemma EnqueuedBallot(
    delivered: set<(Id, nat, Id)>, h: History, h': History, n: Node, n': Node, e': Election)
    requires BallotOk(delivered, h, n) && n.status == Leader && n'.status == Leader
    requires n'.id == n.id && n'.term == n.term && n'.votedFor == n.votedFor
    requires n.term in h.elections && h'.votes == h.votes
    requires e' == h.elections[n.term].(log := n'.log) && h'.elections == h.elections[n.term := e']
    ensures BallotOk(delivered, h', n')
  {
    forall t, v | (t, v) in h'.votes && h'.votes[(t, v)].candidate == n'.id
      ensures Describes(n', t, h'.votes[(t, v)].lastIndex, h'.votes[(t, v)].lastTerm)
    {
      assert Describes(n, t, h.votes[(t, v)].lastIndex, h.votes[(t, v)].lastTerm);
    }
  }

  /** A command refused by a node that does not lead is answered at once. */
  lemma RefuseOk(delivered: set<(Id, nat, Id)>, h: History, n: Node, c: Command, n': Node)
    requires NodeOk(delivered, h, n) && n.status != Leader
    requires n' == n.(submitted := n.submitted + [c], answered := n.answered[|n.submitted| := NotLeader])
    ensures NodeOk(delivered, h, n')
  {
    LogFrame(h, n, n');
    BallotFrame(delivered, h, n, n');
    WireFrame(h, n, n');
    RefusedAnswers(h, n, c, n');
  }

  lemma RefusedAnswers(h: History, n: Node, c: Command, n': Node)
    requires ClientsOk(h, n) && n.status != Leader
    requires n' == n.(submitted := n.submitted + [c], answered := n.answered[|n.submitted| := NotLeader])
    ensures ClientsOk(h, n')
  {
    hide ResultOf, Applied, Replay;
    forall f | f in n'.answered
      ensures f < |n'.submitted| && Truthful(h, n', f)
    {
      if f in n.answered {
        assert Truthful(h, n, f);
      }
    }
  }
}
