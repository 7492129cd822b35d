/** The election steps keep the cluster invariant: stepping down, standing, voting, counting, winning. */
module RaftElections {
  import opened Wrappers
  import opened RaftLog
  import opened RaftProtocol
  import opened RaftHistory
  import opened RaftGrowth
  import opened RaftInvariant

  lemma ExtendsItself(h: History)
    ensures Extends(h, h)
  {
    forall t | t in h.elections
      ensures ElectionExtends(h.elections[t], h.elections[t])
    {
    }
  }

  /* ---- What each part of the node invariant depends on ---- */

  lemma LogFrame(h: History, n: Node, n': Node)
    requires LogOk(h, n)
    requires n'.id == n.id && n'.log == n.log && n'.commit == n.commit && n.term <= n'.term
    requires n'.status == Candidate ==> n.status == Candidate || n.term < n'.term
    ensures LogOk(h, n')
  {
    ExtendsItself(h);
    forall a | a in h.acks && a.node == n.id
      ensures Kept(h, n.log, a.term, a.upto, n'.term)
    {
      KeptGrows(h, h, n.log, a.term, a.upto, n.term, n'.term);
    }
    CommitGrows(h, h, n.log, n.commit, n.term, n.log, n'.term);
  }

  lemma ClientsFrame(h: History, n: Node, n': Node)
    requires ClientsOk(h, n)
    requires n'.id == n.id && n'.log == n.log && n'.applied == n.applied
    requires n'.pending == n.pending && n'.submitted == n.submitted && n'.answered == n.answered
    requires n'.status == n.status || n.status != Leader
    ensures ClientsOk(h, n')
  {
    forall f | f in n'.answered
      ensures Truthful(h, n', f)
    {
      assert Truthful(h, n, f);
    }
    forall k | k in n'.pending
      ensures Waiting(h, n', k)
    {
      assert Waiting(h, n, k);
    }
  }

  lemma WireFrame(h: History, n: Node, n': Node)
    requires WireOk(h, n)
    requires n'.id == n.id && n'.peers == n.peers && n'.log == n.log && n.term <= n'.term
    requires n'.voteRequests == n.voteRequests && n'.appendRequests == n.appendRequests
    requires n'.matchIndex == n.matchIndex
    requires n'.status == Candidate ==> n.status == Candidate || n.term < n'.term
    requires n'.status == Leader ==> n.status == Leader && n'.term == n.term
    ensures WireOk(h, n')
  {
    forall q | q in n'.voteRequests
      ensures VoteRequestOk(n', q)
    {
      assert VoteRequestOk(n, q);
    }
  }

  lemma BallotFrame(delivered: set<(Id, nat, Id)>, h: History, n: Node, n': Node)
    requires BallotOk(delivered, h, n)
    requires n'.id == n.id && n'.log == n.log && n'.term == n.term && n'.votes == n.votes
    requires n'.votedFor == n.votedFor && n'.status == n.status
    ensures BallotOk(delivered, h, n')
  {
  }

  /** Fields outside the log, the ballots, the clients and the outboxes do not matter to the invariant. */
  lemma Cosmetic(delivered: set<(Id, nat, Id)>, h: History, n: Node, n': Node)
    requires NodeOk(delivered, h, n)
    requires n' == n.(leaderId := n'.leaderId, timerArmed := n'.timerArmed, inFlight := n'.inFlight)
    requires n'.timerArmed ==> n.status != Leader
    ensures NodeOk(delivered, h, n')
  {
    LogFrame(h, n, n');
    ClientsFrame(h, n, n');
    WireFrame(h, n, n');
    BallotFrame(delivered, h, n, n');
  }

  /* ---- Stepping down ---- */

  lemma FailedAnswers(h: History, n: Node, answered': map<Future, CommandResult>)
    requires WaitersOk(h, n)
    requires answered' == n.answered + map f | f in n.pending.Values :: NotLeader
    ensures forall f :: f in answered' <==> f in n.answered || f in n.pending.Values
    ensures forall f :: f in n.pending.Values ==> answered'[f] == NotLeader
    ensures forall f :: f in n.answered && f !in n.pending.Values ==> answered'[f] == n.answered[f]
    ensures forall f :: f in n.pending.Values ==> f < |n.submitted|
  {
    forall f | f in n.pending.Values
      ensures f < |n.submitted|
    {
      var k :| k in n.pending && n.pending[k] == f;
      assert Waiting(h, n, k);
    }
  }

  lemma TruthStays(h: History, n: Node, n': Node, f: Future)
    requires f in n.answered && f in n'.answered && n'.answered[f] == n.answered[f]
    requires n'.id == n.id && n'.log == n.log && n.applied <= n'.applied && n'.submitted == n.submitted
    requires Truthful(h, n, f)
    ensures Truthful(h, n', f)
  {
  }

  lemma FailedAnswersOk(h: History, n: Node, n': Node)
    requires WaitersOk(h, n) && AnswersOk(h, n)
    requires n'.id == n.id && n'.log == n.log && n'.applied == n.applied && n'.submitted == n.submitted
    requires n'.answered == n.answered + map f | f in n.pending.Values :: NotLeader
    ensures AnswersOk(h, n')
  {
    FailedAnswers(h, n, n'.answered);
    forall f | f in n'.answered
      ensures f < |n'.submitted| && Truthful(h, n', f)
    {
      if f !in n.pending.Values {
        TruthStays(h, n, n', f);
      }
    }
    forall f, g | f in n'.answered && g in n'.answered && AnswerIndex(n'.answered[f]) == AnswerIndex(n'.answered[g]) != 0
      ensures f == g
    {
      assert f !in n.pending.Values && g !in n.pending.Values;
    }
  }

  lemma FailedAccountedFor(n: Node, n': Node)
    requires AccountedFor(n)
    requires n'.pending == map[] && n'.submitted == n.submitted
    requires n'.answered == n.answered + map f | f in n.pending.Values :: NotLeader
    ensures AccountedFor(n')
  {
  }

  lemma SteppedDownBallot(delivered: set<(Id, nat, Id)>, h: History, n: Node, n': Node)
    requires BallotOk(delivered, h, n)
    requires n'.id == n.id && n'.log == n.log && n.term <= n'.term && n'.status == Follower
    requires n'.votedFor == if n'.term > n.term then None else n.votedFor
    requires n'.term > n.term || n.status != Leader
    ensures BallotOk(delivered, h, n')
  {
  }

  lemma BecomeFollowerOk(delivered: set<(Id, nat, Id)>, h: History, n: Node, seenTerm: nat)
    requires NodeOk(delivered, h, n) && (seenTerm > n.term || n.status != Leader)
    ensures NodeOk(delivered, h, BecomeFollower(n, seenTerm))
  {
    var n' := BecomeFollower(n, seenTerm);
    LogFrame(h, n, n');
    FailedAnswersOk(h, n, n');
    FailedAccountedFor(n, n');
    WireFrame(h, n, n');
    SteppedDownBallot(delivered, h, n, n');
  }

  /* ---- Recording a vote ---- */

  ghost function VoteOf(h: History, n: Node, t: nat, candidate: Id, lastIndex: nat, lastTerm: nat): Vote {
    Vote(candidate, n.log, lastIndex, lastTerm, t !in h.elections)
  }

  /** A node at term t votes for the first time in that term. */
  lemma RecordVote(h: History, n: Node, w: Vote, counted': map<Id, set<Id>>) returns (h': History)
    requires HistoryOk(h) && TermsOk(h, n) && AcksOk(h, n) && n.id in h.ids
    requires w.candidate in h.ids && LogUpToDate(w.lastTerm, w.lastIndex, n.log)
    requires w == VoteOf(h, n, n.term, w.candidate, w.lastIndex, w.lastTerm)
    requires (n.term, n.id) !in h.votes
    requires h.counted.Keys <= counted'.Keys
    requires forall j :: j in counted' && j != n.id ==> j in h.counted && counted'[j] == h.counted[j]
    ensures h' == h.(votes := h.votes[(n.term, n.id) := w], counted := counted')
    ensures HistoryOk(h') && Extends(h, h') && OnlyAbout(h, h', n.id)
  {
    h' := h.(votes := h.votes[(n.term, n.id) := w], counted := counted');
    forall t | t in h.elections
      ensures ElectionExtends(h.elections[t], h'.elections[t])
    {
    }
    assert Extends(h, h');
    GroundedGrows(h, h', n.log);
    forall a | a in h.acks
      ensures VoteKeeps(h', n.term, n.id, a)
    {
      if a.node == n.id && a.term < n.term {
        KeptBeforeOwnElection(h, n, a, w);
        KeptGrows(h, h', n.log, a.term, a.upto, VoteBound(w, n.term), VoteBound(w, n.term));
      }
    }
    HistoryGrows(h, h');
  }

  /** With no leader of its term elected yet, what a node has lost it lost to leaders of earlier terms. */
  lemma KeptBeforeOwnElection(h: History, n: Node, a: Ack, w: Vote)
    requires AcksOk(h, n) && a in h.acks && a.node == n.id && a.term < n.term
    requires w.early == (n.term !in h.elections)
    ensures Kept(h, n.log, a.term, a.upto, VoteBound(w, n.term))
  {
    forall j: nat | j <= a.upto
      ensures KeptAt(h, n.log, a.term, j, VoteBound(w, n.term))
    {
      assert KeptAt(h, n.log, a.term, j, n.term);
      if !Retains(n.log, h.elections[a.term].log, j) {
        var s :| DivergedBetween(h, a.term, j, n.term, s);
        assert DivergedBetween(h, a.term, j, VoteBound(w, n.term), s);
      }
    }
  }


  /** Candidates other than the one a new vote is for are not concerned by it. */
  lemma OthersStand(h: History, h': History, m: Node, candidate: Id)
    requires Extends(h, h') && CandidacyOk(h, m) && m.id != candidate
    requires forall t, v :: (t, v) in h'.votes && (t, v) !in h.votes ==> h'.votes[(t, v)].candidate == candidate
    ensures CandidacyOk(h', m)
  {
  }

  lemma LogGrows(h: History, h': History, n: Node)
    requires Extends(h, h') && LogOk(h, n)
    requires forall a :: a in h'.acks && a !in h.acks ==> a.node != n.id
    ensures LogOk(h', n)
  {
    GroundedGrows(h, h', n.log);
    forall a | a in h'.acks && a.node == n.id
      ensures Kept(h', n.log, a.term, a.upto, n.term)
    {
      KeptGrows(h, h', n.log, a.term, a.upto, n.term, n.term);
    }
    CommitGrows(h, h', n.log, n.commit, n.term, n.log, n.term);
  }

  /** Outside its ballots, a node's invariant outlives any history step that is not its own acknowledgement. */
  lemma RestGrows(h: History, h': History, n: Node)
    requires Extends(h, h') && RestOk(h, n)
    requires forall a :: a in h'.acks && a !in h.acks ==> a.node != n.id
    ensures RestOk(h', n)
  {
    LogGrows(h, h', n);
    ClientsGrow(h, h', n);
    SentGrows(h, h', n);
  }

  /** Outside its ballots, a node's invariant survives a change of its ballot fields away from leadership. */
  lemma RestFrame(h: History, n: Node, n': Node)
    requires RestOk(h, n) && n.status != Leader && n'.status != Leader
    requires n' == n.(term := n'.term, status := n'.status, votedFor := n'.votedFor, votes := n'.votes,
                      leaderId := n'.leaderId, timerArmed := n'.timerArmed)
    requires n.term <= n'.term && (n'.status == Candidate ==> n.status == Candidate || n.term < n'.term)
    ensures RestOk(h, n')
  {
    LogFrame(h, n, n');
    ClientsFrame(h, n, n');
    WireFrame(h, n, n');
  }

  /* ---- Standing for election ---- */

  lemma StandingBallot(delivered: set<(Id, nat, Id)>, h: History, h': History, n: Node, n': Node, w: Vote)
    requires BallotOk(delivered, h, n) && n.id in h.ids && h'.ids == h.ids
    requires n'.id == n.id && n'.log == n.log && n'.term == n.term + 1
    requires n'.status == Candidate && n'.votedFor == Some(n.id) && n'.votes == 1
    requires h'.elections == h.elections && h'.votes == h.votes[(n'.term, n.id) := w]
    requires w.candidate == n.id && w.lastIndex == |n.log| && w.lastTerm == LastTerm(n.log)
    requires n.id in h'.counted && h'.counted[n.id] == {n.id}
    ensures BallotOk(delivered, h', n')
  {
    forall t, v | (t, v) in h'.votes && h'.votes[(t, v)].candidate == n'.id
      ensures Describes(n', t, h'.votes[(t, v)].lastIndex, h'.votes[(t, v)].lastTerm)
    {
      if (t, v) != (n'.term, n.id) {
        assert Describes(n, t, h.votes[(t, v)].lastIndex, h.votes[(t, v)].lastTerm);
      }
    }
  }

  lemma StandingHistory(h: History, n: Node) returns (h': History, w: Vote)
    requires HistoryOk(h) && LogOk(h, n) && VotingOk(h, n) && n.id in h.ids
    ensures w == VoteOf(h, n, n.term + 1, n.id, |n.log|, LastTerm(n.log))
    ensures h' == h.(votes := h.votes[(n.term + 1, n.id) := w], counted := h.counted[n.id := {n.id}])
    ensures HistoryOk(h') && Extends(h, h') && OnlyAbout(h, h', n.id)
  {
    var n' := Candidacy(n);
    LogFrame(h, n, n');
    w := VoteOf(h, n, n'.term, n.id, |n.log|, LastTerm(n.log));
    h' := RecordVote(h, n', w, h.counted[n.id := {n.id}]);
  }

  lemma StandOk(delivered: set<(Id, nat, Id)>, h: History, n: Node) returns (h': History)
    requires HistoryOk(h) && NodeOk(delivered, h, n) && n.status != Leader
    ensures HistoryOk(h') && Extends(h, h') && OnlyAbout(h, h', n.id)
    ensures NodeOk(delivered, h', Candidacy(n))
    ensures forall t, v :: (t, v) in h'.votes && (t, v) !in h.votes ==> h'.votes[(t, v)].candidate == n.id
    ensures h'.elections == h.elections && n.id in h'.counted && h'.counted[n.id] == {n.id} && h'.acks == h.acks
  {
    hide HistoryOk;
    var w;
    h', w := StandingHistory(h, n);
    RestFrame(h, n, Candidacy(n));
    RestGrows(h, h', Candidacy(n));
    StandingBallot(delivered, h, h', n, Candidacy(n), w);
  }

  lemma RequestVotesOk(delivered: set<(Id, nat, Id)>, h: History, n: Node)
    requires NodeOk(delivered, h, n) && n.status == Candidate
    ensures NodeOk(delivered, h, RequestVotes(n))
  {
    var n' := RequestVotes(n);
    LogFrame(h, n, n');
    ClientsFrame(h, n, n');
    BallotFrame(delivered, h, n, n');
    assert SentOk(h, n') by {
      assert forall q :: q in n.voteRequests ==> VoteRequestOk(n, q);
    }
  }

  /* ---- Granting a vote ---- */

  lemma GrantedBallot(delivered: set<(Id, nat, Id)>, h: History, h': History, n: Node, n': Node, w: Vote)
    requires BallotOk(delivered, h, n) && n.status == Follower && n'.status == Follower
    requires n'.id == n.id && n'.log == n.log && n'.term == n.term && n'.votedFor == Some(w.candidate)
    requires h'.elections == h.elections && h'.votes == h.votes[(n.term, n.id) := w]
    requires w.candidate != n.id
    ensures BallotOk(delivered, h', n')
  {
    forall t, v | (t, v) in h'.votes && h'.votes[(t, v)].candidate == n'.id
      ensures Describes(n', t, h'.votes[(t, v)].lastIndex, h'.votes[(t, v)].lastTerm)
    {
      assert Describes(n, t, h.votes[(t, v)].lastIndex, h.votes[(t, v)].lastTerm);
    }
  }

  lemma GrantOk(delivered: set<(Id, nat, Id)>, h: History, n: Node, q: VoteRequest) returns (h': History)
    requires HistoryOk(h) && NodeOk(delivered, h, n)
    requires q.candidate != n.id && q.candidate in h.ids && q.term == n.term && Grants(n, q)
    ensures HistoryOk(h') && Extends(h, h') && OnlyAbout(h, h', n.id)
    ensures NodeOk(delivered, h', n.(votedFor := Some(q.candidate), timerArmed := true))
    ensures Backs(h', q.term, n.id, q.candidate) && h'.acks == h.acks
    ensures forall t, v :: (t, v) in h'.votes && (t, v) !in h.votes ==>
              t == q.term && h'.votes[(t, v)].candidate == q.candidate
              && h'.votes[(t, v)].lastIndex == q.lastLogIndex && h'.votes[(t, v)].lastTerm == q.lastLogTerm
  {
    var n' := n.(votedFor := Some(q.candidate), timerArmed := true);
    assert VotingOk(h, n);
    assert n.status == Follower;
    if n.votedFor.Some? {
      h' := h;
      ExtendsItself(h);
      Cosmetic(delivered, h, n, n');
    } else {
      var w := VoteOf(h, n, n.term, q.candidate, q.lastLogIndex, q.lastLogTerm);
      h' := RecordVote(h, n, w, h.counted);
      GrantedBallot(delivered, h, h', n, n', w);
      RestFrame(h, n, n');
      RestGrows(h, h', n');
    }
  }

  /** A vote granted to a candidacy that is still on describes the candidate's log, as its request did. */
  lemma VoteDescribesCandidate(h: History, h': History, candidate: Node, q: VoteRequest)
    requires Extends(h, h') && CandidacyOk(h, candidate) && VoteRequestOk(candidate, q)
    requires forall t, v :: (t, v) in h'.votes && (t, v) !in h.votes ==>
               t == q.term && h'.votes[(t, v)].candidate == q.candidate
               && h'.votes[(t, v)].lastIndex == q.lastLogIndex && h'.votes[(t, v)].lastTerm == q.lastLogTerm
    ensures CandidacyOk(h', candidate)
  {
    forall t, v | (t, v) in h'.votes && h'.votes[(t, v)].candidate == candidate.id
      ensures Describes(candidate, t, h'.votes[(t, v)].lastIndex, h'.votes[(t, v)].lastTerm)
    {
      if (t, v) in h.votes {
        assert Describes(candidate, t, h.votes[(t, v)].lastIndex, h.votes[(t, v)].lastTerm);
      }
    }
  }

  /* ---- Counting a vote ---- */

  lemma CountingIsHistory(h: History, h': History)
    requires HistoryOk(h) && h' == h.(counted := h'.counted)
    ensures HistoryOk(h') && Extends(h, h')
  {
    forall t | t in h.elections
      ensures ElectionExtends(h.elections[t], h'.elections[t])
    {
    }
    HistoryGrows(h, h');
  }

  lemma CountOneOk(delivered: set<(Id, nat, Id)>, h: History, n: Node, r: VoteReply)
    returns (h': History, delivered': set<(Id, nat, Id)>)
    requires HistoryOk(h) && NodeOk(delivered, h, n)
    requires n.status == Candidate && r.granted && r.to == n.id && n.term == r.roundTerm && VoteReplyOk(h, r)
    requires (r.to, r.roundTerm, r.from) !in delivered
    ensures HistoryOk(h') && Extends(h, h') && OnlyAbout(h, h', n.id)
    ensures h' == h.(counted := h.counted[n.id := h'.counted[n.id]])
    ensures delivered' == delivered + {(r.to, r.roundTerm, r.from)}
    ensures NodeOk(delivered', h', n.(votes := n.votes + 1))
  {
    delivered' := delivered + {(r.to, r.roundTerm, r.from)};
    h' := h.(counted := h.counted[n.id := h.counted[n.id] + {r.from}]);
    var n' := n.(votes := n.votes + 1);
    CountingIsHistory(h, h');
    assert r.from !in h.counted[n.id] by {
      assert CountOk(delivered, h, n);
    }
    RestFrame(h, n, n');
    RestGrows(h, h', n');
    CountedBallot(delivered, delivered', h, h', n, n', r);
  }

  lemma CountedBallot(
    delivered: set<(Id, nat, Id)>, delivered': set<(Id, nat, Id)>, h: History, h': History, n: Node, n': Node, r: VoteReply)
    requires BallotOk(delivered, h, n) && n.status == Candidate
    requires n' == n.(votes := n.votes + 1) && delivered' == delivered + {(n.id, n.term, r.from)}
    requires r.from in h.ids && Backs(h, n.term, r.from, n.id) && r.from !in h.counted[n.id]
    requires h' == h.(counted := h.counted[n.id := h.counted[n.id] + {r.from}])
    ensures BallotOk(delivered', h', n')
  {
    forall v | v in h'.counted[n.id]
      ensures Backs(h', n.term, v, n.id) && (v != n.id ==> (n.id, n.term, v) in delivered')
    {
      if v != r.from {
        assert Backs(h, n.term, v, n.id);
      }
    }
    assert CandidacyOk(h', n') by {
      forall t, v | (t, v) in h'.votes && h'.votes[(t, v)].candidate == n'.id
        ensures Describes(n', t, h'.votes[(t, v)].lastIndex, h'.votes[(t, v)].lastTerm)
      {
        assert Describes(n, t, h.votes[(t, v)].lastIndex, h.votes[(t, v)].lastTerm);
      }
    }
  }

  /* ---- Winning ---- */

  /** Election Safety: a candidate with a majority is the first leader of its term. */
  lemma NoLeaderYet(delivered: set<(Id, nat, Id)>, h: History, n: Node)
    requires HistoryOk(h) && BallotOk(delivered, h, n) && n.status == Candidate
    requires n.votes >= Majority(|h.ids|)
    ensures n.term !in h.elections
  {
    if n.term in h.elections {
      assert ElectionOk(h, n.term);
      var v := MajoritiesIntersect(h.ids, h.counted[n.id], h.elections[n.term].quorum);
    }
  }

  lemma WinningHistory(delivered: set<(Id, nat, Id)>, h: History, n: Node) returns (h': History)
    requires HistoryOk(h) && BallotOk(delivered, h, n) && LogOk(h, n) && n.id in h.ids
    requires n.status == Candidate && n.votes >= Majority(|h.ids|)
    ensures n.term !in h.elections
    ensures h' == h.(elections := h.elections[n.term := Election(n.id, h.counted[n.id], |n.log|, n.log)],
                     acks := h.acks + {Ack(n.id, n.term, |n.log|)})
    ensures HistoryOk(h') && Extends(h, h') && OnlyAbout(h, h', n.id)
  {
    hide HistoryOk, LogOk, BallotOk, VotingOk, Grounded, VoteKeeps;
    CountsItself(delivered, h, n);
    NoLeaderYet(delivered, h, n);
    var e := Election(n.id, h.counted[n.id], |n.log|, n.log);
    var a := Ack(n.id, n.term, |n.log|);
    h' := h.(elections := h.elections[n.term := e], acks := h.acks + {a});
    forall t | t in h.elections
      ensures ElectionExtends(h.elections[t], h'.elections[t])
    {
    }
    WonElection(delivered, h, h', n);
    NoLaterVotes(h, h', n, a);
    HistoryGrows(h, h');
  }

  lemma CountsItself(delivered: set<(Id, nat, Id)>, h: History, n: Node)
    requires BallotOk(delivered, h, n) && n.status == Candidate
    ensures n.id in h.counted && VotingOk(h, n)
  {
  }

  lemma WonElection(delivered: set<(Id, nat, Id)>, h: History, h': History, n: Node)
    requires HistoryOk(h) && BallotOk(delivered, h, n) && LogOk(h, n) && n.id in h.ids && Extends(h, h')
    requires n.status == Candidate && n.votes >= Majority(|h.ids|)
    requires n.term in h'.elections && h'.elections[n.term] == Election(n.id, h.counted[n.id], |n.log|, n.log)
    requires Ack(n.id, n.term, |n.log|) in h'.acks
    ensures ElectionOk(h', n.term)
  {
    GroundedGrows(h, h', n.log);
    hide Grounded;
    forall v | v in h.counted[n.id]
      ensures Supports(h', n.term, v)
    {
      assert Backs(h, n.term, v, n.id);
      assert Describes(n, n.term, h.votes[(n.term, v)].lastIndex, h.votes[(n.term, v)].lastTerm);
      assert VoteOk(h, n.term, v);
      assert n.log[..|n.log|] == n.log;
    }
  }

  lemma NoLaterVotes(h: History, h': History, n: Node, a: Ack)
    requires VotingOk(h, n) && h'.votes == h.votes && a.node == n.id && a.term == n.term
    ensures forall t, v :: (t, v) in h'.votes ==> VoteKeeps(h', t, v, a)
  {
    forall t, v | (t, v) in h'.votes
      ensures VoteKeeps(h', t, v, a)
    {
      assert v == n.id ==> t <= n.term;
    }
  }

  /** The bare counter needs single delivery: among five nodes one grant delivered twice makes a leader with two voters. */
  lemma RepeatedReplyOvercounts(n: Node, r: VoteReply)
    requires n.status == Candidate && n.votes == 1 && |n.peers| == 4
    requires r.granted && r.term == n.term && r.roundTerm == n.term
    ensures OnVoteReply(n, r).status == Candidate && OnVoteReply(OnVoteReply(n, r), r).status == Leader
  {
    var n1 := n.(votes := 2);
    assert OnVoteReply(n, r) == n1;
    assert OnVoteReply(n1, r) == BecomeLeader(n1.(votes := 3));
  }
}
