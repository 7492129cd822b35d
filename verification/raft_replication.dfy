/** The replication steps keep the node invariant: sending, merging, learning the commit index, applying. */
module RaftReplication {
  import opened SetFacts
  import opened KeyValue
  import opened RaftLog
  import opened RaftProtocol
  import opened RaftHistory
  import opened RaftGrowth
  import opened RaftInvariant
  import opened RaftElections

  /* ---- Taking office and sending ---- */

  lemma TakeOfficeOk(delivered: set<(Id, nat, Id)>, h: History, n: Node) returns (h': History)
    requires HistoryOk(h) && NodeOk(delivered, h, n)
    requires n.status == Candidate && n.votes >= Majority(|h.ids|)
    ensures n.term !in h.elections && n.term in h'.elections && h'.elections[n.term].leader == n.id
    ensures HistoryOk(h') && Extends(h, h') && OnlyAbout(h, h', n.id) && h'.votes == h.votes
    ensures forall a :: a in h'.acks && a !in h.acks ==> a.term == n.term
    ensures NodeOk(delivered, h', TakeOffice(n))
  {
    hide HistoryOk, LogOk, ClientsOk, BallotOk, Extends;
    h' := WinningHistory(delivered, h, n);
    var n' := TakeOffice(n);
    ClientsFrame(h, n, n');
    ClientsGrow(h, h', n');
    NewLeaderLog(h, h', n, n');
    NewLeaderBallot(delivered, h, h', n, n');
    SentGrows(h, h', n);
    assert SentOk(h', n') by {
      assert forall q :: q in n.voteRequests ==> VoteRequestOk(n, q);
    }
  }

  lemma NewLeaderLog(h: History, h': History, n: Node, n': Node)
    requires LogOk(h, n) && Extends(h, h')
    requires n'.id == n.id && n'.log == n.log && n'.term == n.term && n'.commit == n.commit && n'.status == Leader
    requires n.term in h'.elections && h'.elections[n.term].log == n.log
    requires h'.acks == h.acks + {Ack(n.id, n.term, |n.log|)}
    ensures LogOk(h', n')
  {
    GroundedGrows(h, h', n.log);
    CommitGrows(h, h', n.log, n.commit, n.term, n.log, n.term);
    forall a | a in h'.acks && a.node == n'.id
      ensures a.term <= n'.term && Kept(h', n'.log, a.term, a.upto, n'.term)
    {
      if a in h.acks {
        KeptGrows(h, h', n.log, a.term, a.upto, n.term, n.term);
      } else {
        assert forall j: nat :: j <= |n.log| ==> Retains(n.log, n.log, j);
      }
    }
  }

  lemma NewLeaderBallot(delivered: set<(Id, nat, Id)>, h: History, h': History, n: Node, n': Node)
    requires BallotOk(delivered, h, n)
    requires n'.id == n.id && n'.log == n.log && n'.term == n.term && n'.votedFor == n.votedFor
    requires n.status == Candidate && n'.status == Leader
    requires h'.votes == h.votes && n.term !in h.elections
    requires h'.elections == h.elections[n.term := Election(n.id, h.counted[n.id], |n.log|, n.log)]
    ensures BallotOk(delivered, h', n')
  {
    forall t, v | (t, v) in h'.votes && h'.votes[(t, v)].candidate == n'.id
      ensures Describes(n', t, h'.votes[(t, v)].lastIndex, h'.votes[(t, v)].lastTerm)
    {
      assert Describes(n, t, h.votes[(t, v)].lastIndex, h.votes[(t, v)].lastTerm);
    }
  }

  /** Every request a leader builds is a slice of its term's log and carries a justified commit index it covers. */
  lemma RequestForOk(h: History, n: Node, p: Id)
    requires LogOk(h, n) && OfficeOk(h, n) && n.commit <= |n.log|
    requires n.status == Leader && CursorsInRange(n) && p in n.peers
    ensures var m := RequestFor(n, p);
            m.leader == n.id && m.to == p && m.term == n.term && AppendRequestOk(h, m)
            && m.prevIndex + |m.entries| == |n.log|
  {
    var m := RequestFor(n, p);
    assert h.elections[n.term].log == n.log;
    assert m.entries == n.log[m.prevIndex..];
  }

  lemma SendOk(delivered: set<(Id, nat, Id)>, h: History, n: Node, n': Node)
    requires NodeOk(delivered, h, n) && n.status == Leader
    requires n' == n.(inFlight := n'.inFlight, appendRequests := n'.appendRequests)
    requires forall m :: m in n'.appendRequests ==>
               m in n.appendRequests || (m.to in n.peers && m == RequestFor(n, m.to))
    ensures NodeOk(delivered, h, n')
  {
    LogFrame(h, n, n');
    ClientsFrame(h, n, n');
    BallotFrame(delivered, h, n, n');
    SentFrame(h, n, n');
  }

  lemma SentFrame(h: History, n: Node, n': Node)
    requires WireOk(h, n) && LogOk(h, n) && OfficeOk(h, n) && n.commit <= |n.log|
    requires n.status == Leader && CursorsInRange(n)
    requires n' == n.(inFlight := n'.inFlight, appendRequests := n'.appendRequests)
    requires forall m :: m in n'.appendRequests ==>
               m in n.appendRequests || (m.to in n.peers && m == RequestFor(n, m.to))
    ensures WireOk(h, n')
  {
    forall m | m in n'.appendRequests
      ensures m.leader == n'.id && m.to in n'.peers && m.term <= n'.term && AppendRequestOk(h, m)
    {
      if m !in n.appendRequests {
        RequestForOk(h, n, m.to);
      }
    }
    forall q | q in n'.voteRequests
      ensures VoteRequestOk(n', q)
    {
      assert VoteRequestOk(n, q);
    }
  }

  lemma ReplicateToAllOk(delivered: set<(Id, nat, Id)>, h: History, n: Node)
    requires NodeOk(delivered, h, n)
    ensures NodeOk(delivered, h, ReplicateToAll(n))
  {
    if n.status == Leader {
      SendOk(delivered, h, n, ReplicateToAll(n));
    }
  }

  lemma ReplicateToOk(delivered: set<(Id, nat, Id)>, h: History, n: Node, p: Id)
    requires NodeOk(delivered, h, n) && p in n.peers
    ensures NodeOk(delivered, h, ReplicateTo(n, p))
  {
    if n.status == Leader {
      SendOk(delivered, h, n, ReplicateTo(n, p));
    }
  }

  /* ---- Merging a leader's entries ---- */

  ghost predicate MatchesLog(x: Log, y: Log) {
    forall k: nat :: k < |x| && k < |y| && x[k].term == y[k].term ==> x[..k + 1] == y[..k + 1]
  }

  /**
   What the term-comparing loop computes: when equal terms mean equal prefixes, the result is
   the follower's log if it already has everything sent, and the sender's prefix otherwise.
   */
  lemma {:induction false} MergeYieldsSenderLog(log: Log, index: nat, entries: Log, full: Log)
    requires index <= |log| && |full| == index + |entries| && entries == full[index..]
    requires log[..index] == full[..index] && MatchesLog(log, full)
    ensures Merge(log, index, entries) == if full <= log then log else full
    decreases |entries|
  {
    if entries == [] {
      assert full == log[..index];
    } else if index < |log| && log[index].term == entries[0].term {
      assert log[..index + 1] == full[..index + 1];
      MergeYieldsSenderLog(log, index + 1, entries[1..], full);
    } else {
      var cut := log[..index] + [entries[0]];
      assert cut == full[..index + 1];
      forall k: nat | k < |cut| && k < |full| && cut[k].term == full[k].term
        ensures cut[..k + 1] == full[..k + 1]
      {
        assert cut[..k + 1] == full[..index + 1][..k + 1];
      }
      MergeYieldsSenderLog(cut, index + 1, entries[1..], full);
      assert full <= cut ==> cut == full;
    }
  }

  ghost function SenderPrefix(h: History, m: AppendRequest): Log
    requires AppendRequestOk(h, m)
  {
    h.elections[m.term].log[..m.prevIndex + |m.entries|]
  }

  lemma MergeOutcome(h: History, n: Node, m: AppendRequest)
    requires HistoryOk(h) && Grounded(h, n.log) && AppendRequestOk(h, m)
    requires PrevMatches(n.log, m.prevIndex, m.prevTerm)
    ensures var full := SenderPrefix(h, m);
            Merge(n.log, m.prevIndex, m.entries) == if full <= n.log then n.log else full
  {
    assert ElectionOk(h, m.term);
    var l := h.elections[m.term].log;
    var full := SenderPrefix(h, m);
    PrefixGrounded(h, l, |full|);
    if m.prevIndex > 0 {
      GroundedLogsMatch(h, n.log, full, m.prevIndex - 1);
    }
    forall k: nat | k < |n.log| && k < |full| && n.log[k].term == full[k].term
      ensures n.log[..k + 1] == full[..k + 1]
    {
      GroundedLogsMatch(h, n.log, full, k);
    }
    MergeYieldsSenderLog(n.log, m.prevIndex, m.entries, full);
  }

  /** Replacing a log by the leader's prefix keeps every acknowledged prefix, or records the leader that lacks it. */
  lemma KeptAfterMerge(h: History, x: Log, full: Log, term: nat, t: nat, j: nat)
    requires HistoryOk(h) && Grounded(h, x) && KeptAt(h, x, t, j, term) && t <= term
    requires term in h.elections && full <= h.elections[term].log && !(full <= x)
    ensures KeptAt(h, full, t, j, term)
  {
    var l, chosen := h.elections[term].log, h.elections[t].log;
    if Retains(x, chosen, j) {
      assert ElectionOk(h, term) && ElectionOk(h, t);
      if t < term {
        if Diverges(l, chosen, j) {
          assert DivergedBetween(h, t, j, term, term);
        } else {
          var k := if j <= |full| then j else |full|;
          assert !Diverges(l, chosen, k) by {
            assert forall i: nat :: i < k ==> !DivergesAt(l, chosen, i);
          }
          AgreeUnlessDiverging(h, l, chosen, k);
          RetainedUpTo(x, full, l, chosen, j, k);
        }
      } else {
        var k := if j <= |full| then j else |full|;
        RetainedUpTo(x, full, l, chosen, j, k);
      }
    } else {
      var s :| DivergedBetween(h, t, j, term, s);
    }
  }

  lemma RetainedUpTo(x: Log, full: Log, l: Log, chosen: Log, j: nat, k: nat)
    requires Retains(x, chosen, j) && full <= l && !(full <= x)
    requires k == if j <= |full| then j else |full|
    requires k <= |chosen| && l[..k] == chosen[..k]
    ensures Retains(full, chosen, j)
  {
    if j <= |full| {
      assert full[..j] == l[..j];
    }
  }

  /** Committed Entries Survive: a merge never touches what the follower has committed. */
  lemma CommittedSurvivesMerge(h: History, n: Node, m: AppendRequest)
    requires HistoryOk(h) && LogOk(h, n) && n.commit <= |n.log| && AppendRequestOk(h, m)
    requires m.term >= n.term && PrevMatches(n.log, m.prevIndex, m.prevTerm)
    ensures var merged := Merge(n.log, m.prevIndex, m.entries);
            n.commit <= |merged| && merged[..n.commit] == n.log[..n.commit]
  {
    hide HistoryOk, Merge, Kept, Grounded, Ascending;
    MergeOutcome(h, n, m);
    var full, l := SenderPrefix(h, m), h.elections[m.term].log;
    if !(full <= n.log) && n.commit > 0 {
      CommittedInLeaderLog(h, n.log, n.commit, n.term, m.term);
      assert full[..Min(n.commit, |full|)] == l[..n.commit][..Min(n.commit, |full|)];
    }
  }

  /** What any node of a term no later has committed is in the log of the term's leader. */
  lemma CommittedInLeaderLog(h: History, log: Log, k: nat, bound: nat, term: nat)
    requires HistoryOk(h) && CommitJustified(h, log, k, bound) && bound <= term && term in h.elections
    requires k <= |log|
    ensures Retains(h.elections[term].log, log, k)
  {
    if k > 0 {
      var t: nat, i: nat :| CommitsVia(h, log, k, bound, t, i);
      var l := h.elections[term].log;
      if t < term {
        LeaderCompleteness(h, t, i, term);
        assert l[..k] == l[..i][..k] == h.elections[t].log[..i][..k];
      }
    }
  }

  /* ---- The follower's new log and its acknowledgement ---- */

  /** A node acknowledges what it holds of the log of its current term's leader. */
  lemma AckHistory(h: History, n: Node, a: Ack) returns (h': History)
    requires HistoryOk(h) && VotingOk(h, n) && n.id in h.ids
    requires a.node == n.id && a.term == n.term && n.term in h.elections && a.upto <= |h.elections[n.term].log|
    ensures h' == h.(acks := h.acks + {a})
    ensures HistoryOk(h') && Extends(h, h') && OnlyAbout(h, h', n.id)
  {
    h' := h.(acks := h.acks + {a});
    forall t | t in h.elections
      ensures ElectionExtends(h.elections[t], h'.elections[t])
    {
    }
    forall t, v | (t, v) in h'.votes
      ensures VoteKeeps(h', t, v, a)
    {
      assert v == n.id ==> t <= n.term;
    }
    HistoryGrows(h, h');
  }

  lemma MergedLogOk(h: History, h': History, n: Node, n': Node, full: Log, a': Ack)
    requires HistoryOk(h) && LogOk(h, n) && Extends(h, h') && n.status == Follower
    requires n.term in h.elections && full <= h.elections[n.term].log
    requires n' == n.(log := n'.log) && n'.log == if full <= n.log then n.log else full
    requires h'.elections == h.elections && h'.acks == h.acks + {a'} && a' == Ack(n.id, n.term, |full|)
    requires n.commit <= |n.log| && Retains(n'.log, n.log, n.commit)
    ensures LogOk(h', n')
  {
    hide HistoryOk, Kept, Grounded, Ascending;
    LeaderPrefixFacts(h, n.term, full);
    GroundedGrows(h, h', n'.log);
    CommitGrows(h, h', n.log, n.commit, n.term, n'.log, n.term);
    forall a | a in h'.acks && a.node == n.id
      ensures a.term <= n.term && Kept(h', n'.log, a.term, a.upto, n.term)
    {
      if a in h.acks {
        OldAckKept(h, h', n, full, n'.log, a);
      } else {
        NewAckKept(h', n'.log, full, n.term);
      }
    }
  }

  lemma LeaderPrefixFacts(h: History, t: nat, full: Log)
    requires HistoryOk(h) && t in h.elections && full <= h.elections[t].log
    ensures Grounded(h, full) && Ascending(full) && forall k :: 0 <= k < |full| ==> full[k].term <= t
  {
    assert ElectionOk(h, t);
    var l := h.elections[t].log;
    assert full == l[..|full|];
    PrefixGrounded(h, l, |full|);
  }

  lemma OldAckKept(h: History, h': History, n: Node, full: Log, merged: Log, a: Ack)
    requires HistoryOk(h) && LogOk(h, n) && Extends(h, h') && n.term in h.elections && full <= h.elections[n.term].log
    requires merged == (if full <= n.log then n.log else full) && a in h.acks && a.node == n.id
    ensures a.term <= n.term && Kept(h', merged, a.term, a.upto, n.term)
  {
    hide HistoryOk, Grounded, Ascending, CommitJustified;
    if !(full <= n.log) {
      forall j: nat | j <= a.upto
        ensures KeptAt(h, full, a.term, j, n.term)
      {
        assert KeptAt(h, n.log, a.term, j, n.term);
        KeptAfterMerge(h, n.log, full, n.term, a.term, j);
      }
    }
    KeptGrows(h, h', merged, a.term, a.upto, n.term, n.term);
  }

  lemma NewAckKept(h: History, merged: Log, full: Log, t: nat)
    requires t in h.elections && full <= h.elections[t].log && full <= merged
    ensures Kept(h, merged, t, |full|, t)
  {
    var l := h.elections[t].log;
    forall j: nat | j <= |full|
      ensures Retains(merged, l, j)
    {
      assert merged[..j] == full[..j] == l[..j];
    }
  }

  lemma MergedClients(h: History, n: Node, n': Node)
    requires ClientsOk(h, n) && n.status == Follower && n.applied <= |n.log|
    requires n' == n.(log := n'.log) && Retains(n'.log, n.log, n.applied)
    ensures ClientsOk(h, n')
  {
    forall f | f in n'.answered
      ensures Truthful(h, n', f)
    {
      assert Truthful(h, n, f);
      if n.answered[f] != NotLeader {
        var i := AnswerIndex(n.answered[f]);
        assert n'.log[i - 1] == n'.log[..n.applied][i - 1] == n.log[..n.applied][i - 1];
        assert n'.log[..i - 1] == n'.log[..n.applied][..i - 1] == n.log[..i - 1];
      }
    }
  }

  lemma MergedWire(h: History, n: Node, n': Node)
    requires WireOk(h, n) && n.status == Follower && n' == n.(log := n'.log)
    ensures WireOk(h, n')
  {
    forall q | q in n'.voteRequests
      ensures VoteRequestOk(n', q)
    {
      assert VoteRequestOk(n, q);
    }
  }

  lemma MergedBallot(delivered: set<(Id, nat, Id)>, h: History, h': History, n: Node, n': Node)
    requires BallotOk(delivered, h, n) && n.status == Follower && n' == n.(log := n'.log)
    requires h' == h.(acks := h'.acks)
    ensures BallotOk(delivered, h', n')
  {
    forall t, v | (t, v) in h'.votes && h'.votes[(t, v)].candidate == n'.id
      ensures Describes(n', t, h'.votes[(t, v)].lastIndex, h'.votes[(t, v)].lastTerm)
    {
      assert Describes(n, t, h.votes[(t, v)].lastIndex, h.votes[(t, v)].lastTerm);
    }
  }

  lemma MergedRest(h: History, h': History, n: Node, n': Node, full: Log, a': Ack)
    requires HistoryOk(h) && RestOk(h, n) && Extends(h, h') && n.status == Follower
    requires n.term in h.elections && full <= h.elections[n.term].log
    requires n' == n.(log := n'.log) && n'.log == if full <= n.log then n.log else full
    requires h'.elections == h.elections && h'.acks == h.acks + {a'} && a' == Ack(n.id, n.term, |full|)
    requires Retains(n'.log, n.log, n.commit)
    ensures RestOk(h', n')
  {
    hide HistoryOk, LogOk, ClientsOk, SentOk;
    MergedLogOk(h, h', n, n', full, a');
    assert n'.log[..n.applied] == n'.log[..n.commit][..n.applied] == n.log[..n.applied];
    MergedClients(h, n, n');
    ClientsGrow(h, h', n');
    MergedWire(h, n, n');
    SentGrows(h, h', n');
  }

  lemma MergeFacts(h: History, n: Node, m: AppendRequest) returns (n': Node, full: Log)
    requires HistoryOk(h) && LogOk(h, n) && n.commit <= |n.log| && AppendRequestOk(h, m)
    requires n.term == m.term && PrevMatches(n.log, m.prevIndex, m.prevTerm)
    ensures n' == MergeInto(n, m) && n' == n.(log := n'.log)
    ensures full == SenderPrefix(h, m) && full <= h.elections[n.term].log && |full| == m.prevIndex + |m.entries|
    ensures n'.log == if full <= n.log then n.log else full
    ensures Retains(n'.log, n.log, n.commit)
  {
    n', full := MergeInto(n, m), SenderPrefix(h, m);
    MergeOutcome(h, n, m);
    CommittedSurvivesMerge(h, n, m);
  }

  /** After a merge the follower holds the sender's prefix, keeps its committed prefix and may acknowledge it. */
  lemma MergeOk(delivered: set<(Id, nat, Id)>, h: History, n: Node, m: AppendRequest) returns (h': History)
    requires HistoryOk(h) && NodeOk(delivered, h, n) && AppendRequestOk(h, m)
    requires n.status == Follower && n.term == m.term && PrevMatches(n.log, m.prevIndex, m.prevTerm)
    ensures HistoryOk(h') && Extends(h, h') && OnlyAbout(h, h', n.id)
    ensures h' == h.(acks := h'.acks) && Ack(n.id, m.term, m.prevIndex + |m.entries|) in h'.acks
    ensures forall a :: a in h'.acks && a !in h.acks ==> a.term == n.term
    ensures NodeOk(delivered, h', MergeInto(n, m))
    ensures SenderPrefix(h, m) <= MergeInto(n, m).log
  {
    hide HistoryOk, NodeOk, RestOk, BallotOk, LogOk, VotingOk, OfficeOk;
    Parts(delivered, h, n);
    var n', full := MergeFacts(h, n, m);
    var a := Ack(n.id, m.term, m.prevIndex + |m.entries|);
    h' := AckHistory(h, n, a);
    MergedRest(h, h', n, n', full, a);
    MergedBallot(delivered, h, h', n, n');
    Joined(delivered, h', n');
  }

  /* ---- Commit index and application ---- */

  lemma CommitFrame(delivered: set<(Id, nat, Id)>, h: History, n: Node, commit: nat)
    requires NodeOk(delivered, h, n) && n.commit <= commit <= |n.log|
    requires CommitJustified(h, n.log, commit, n.term)
    ensures NodeOk(delivered, h, n.(commit := commit))
  {
    var n' := n.(commit := commit);
    ClientsFrame(h, n, n');
    BallotFrame(delivered, h, n, n');
    WireFrame(h, n, n');
    assert LogOk(h, n') by {
      assert TermsOk(h, n) && AcksOk(h, n);
    }
  }

  /** The commit index a follower learns is justified: the leader's request covers it. */
  lemma LearnCommitOk(delivered: set<(Id, nat, Id)>, h: History, n: Node, m: AppendRequest)
    requires NodeOk(delivered, h, n) && AppendRequestOk(h, m) && n.term == m.term
    requires SenderPrefix(h, m) <= n.log
    ensures NodeOk(delivered, h, LearnCommit(n, m.leaderCommit, m.prevIndex + |m.entries|))
  {
    if m.leaderCommit > n.commit {
      var l, full := h.elections[m.term].log, SenderPrefix(h, m);
      assert n.log[..m.leaderCommit] == full[..m.leaderCommit] == l[..m.leaderCommit];
      ExtendsItself(h);
      CommitGrows(h, h, l, m.leaderCommit, m.term, n.log, m.term);
      CommitFrame(delivered, h, n, m.leaderCommit);
    }
  }

  /** The future waiting at the applied index is answered with the outcome of its own command. */
  lemma FreshAnswer(h: History, n: Node, n': Node, k: nat)
    requires LocalOk(n) && n.applied < n.commit && n' == ApplyOne(n)
    requires k == n.applied + 1 && k in n.pending && Waiting(h, n, k)
    ensures n'.answered.Keys == n.answered.Keys + {n.pending[k]}
    ensures Truthful(h, n', n.pending[k]) && AnswerIndex(n'.answered[n.pending[k]]) == k
  {
  }

  lemma AppliedAnswers(h: History, n: Node, n': Node)
    requires LocalOk(n) && WaitersOk(h, n) && AnswersOk(h, n) && n.applied < n.commit && n' == ApplyOne(n)
    requires forall k :: k in n.pending ==> n.pending[k] !in n.answered
    ensures AnswersOk(h, n')
  {
    hide Applied, Replay, ResultOf;
    var k := n.applied + 1;
    if k in n.pending {
      assert Waiting(h, n, k);
      FreshAnswer(h, n, n', k);
    }
    forall f | f in n'.answered
      ensures f < |n'.submitted| && Truthful(h, n', f)
      ensures f in n.answered ==> n'.answered[f] == n.answered[f] && AnswerIndex(n'.answered[f]) <= n.applied
    {
      if f in n.answered {
        TruthStays(h, n, n', f);
      }
    }
  }

  lemma AppliedWaiters(h: History, n: Node, n': Node)
    requires LocalOk(n) && WaitersOk(h, n) && n.applied < n.commit && n' == ApplyOne(n)
    ensures WaitersOk(h, n')
  {
    forall k | k in n'.pending
      ensures Waiting(h, n', k)
    {
      assert Waiting(h, n, k);
    }
  }

  lemma AppliedAccountedFor(n: Node, n': Node)
    requires AccountedFor(n) && n.applied < |n.log| && n' == ApplyOne(n)
    requires forall j, k :: j in n.pending && k in n.pending && n.pending[j] == n.pending[k] ==> j == k
    ensures AccountedFor(n')
  {
    forall f: nat | f < |n'.submitted|
      ensures f in n'.answered || f in n'.pending.Values
    {
      if f in n.pending.Values {
        var k :| k in n.pending && n.pending[k] == f;
        assert k != n.applied + 1 ==> k in n'.pending && n'.pending[k] == f;
      }
    }
  }

  lemma ReplayStep(log: Log, k: nat)
    requires k < |log|
    ensures Replay(log[..k + 1]) == Applied(Replay(log[..k]), log[k].command).0
  {
    assert log[..k + 1][..k] == log[..k];
  }

  lemma ApplyOneOk(delivered: set<(Id, nat, Id)>, h: History, n: Node)
    requires NodeOk(delivered, h, n) && n.applied < n.commit
    ensures NodeOk(delivered, h, ApplyOne(n))
  {
    var n' := ApplyOne(n);
    ReplayStep(n.log, n.applied);
    LogFrame(h, n, n');
    BallotFrame(delivered, h, n, n');
    WireFrame(h, n, n');
    AppliedAnswers(h, n, n');
    AppliedWaiters(h, n, n');
    AppliedAccountedFor(n, n');
  }

  lemma {:induction false} ApplyCommittedOk(delivered: set<(Id, nat, Id)>, h: History, n: Node)
    requires NodeOk(delivered, h, n)
    ensures NodeOk(delivered, h, ApplyCommitted(n))
    decreases n.commit - n.applied
  {
    if n.applied < n.commit {
      ApplyOneOk(delivered, h, n);
      ApplyCommittedOk(delivered, h, ApplyOne(n));
    }
  }

  /** A scanned index is the old commit index, or of the current term and on a majority. */
  lemma {:induction false} ScanFinds(n: Node, k: nat)
    requires k <= |n.log|
    ensures var c := ScanCommit(n, k);
            c == n.commit ||
            (n.commit < c <= k && n.log[c - 1].term == n.term
             && ReplicatedCount(n.matchIndex, c) >= Majority(|n.peers| + 1))
    decreases k
  {
    if k > n.commit && n.log[k - 1].term == n.term {
      ScanFinds(n, k - 1);
    }
  }

  /** An index of the current term on a majority of `matchIndex` is chosen. */
  lemma MajorityIsChosen(h: History, n: Node, k: nat)
    requires HistoryOk(h) && OfficeOk(h, n) && MatchesOk(h, n) && n.status == Leader
    requires n.id in h.ids && n.peers == h.ids - {n.id} && n.matchIndex.Keys == n.peers
    requires 0 < k <= |n.log| && n.log[k - 1].term == n.term
    requires ReplicatedCount(n.matchIndex, k) >= Majority(|n.peers| + 1)
    ensures Chosen(h, n.term, k)
  {
    hide HistoryOk, Grounded, Ascending;
    LeaderAcks(h, n.term);
    var holders := Holders(n.matchIndex, k);
    forall p | p in holders + {n.id}
      ensures p in Ackers(h, n.term, k)
    {
      var a := Ack(p, n.term, if p == n.id then |n.log| else n.matchIndex[p]);
      assert a in h.acks;
    }
    SubsetCard(holders + {n.id}, Ackers(h, n.term, k));
    assert h.ids == n.peers + {n.id};
  }

  lemma LeaderAcks(h: History, t: nat)
    requires HistoryOk(h) && t in h.elections
    ensures Ack(h.elections[t].leader, t, |h.elections[t].log|) in h.acks
  {
    assert ElectionOk(h, t);
  }

  lemma AdvanceCommitOk(delivered: set<(Id, nat, Id)>, h: History, n: Node)
    requires HistoryOk(h) && NodeOk(delivered, h, n)
    ensures NodeOk(delivered, h, AdvanceCommit(n))
  {
    if n.status == Leader {
      ScanFinds(n, |n.log|);
      var k := ScanCommit(n, |n.log|);
      if k != n.commit {
        MajorityIsChosen(h, n, k);
        assert h.elections[n.term].log == n.log;
        assert CommitsVia(h, n.log, k, n.term, n.term, k);
      }
      CommitFrame(delivered, h, n, k);
    }
  }

  lemma SettleOk(delivered: set<(Id, nat, Id)>, h: History, n: Node)
    requires HistoryOk(h) && NodeOk(delivered, h, n)
    ensures NodeOk(delivered, h, Settle(n))
  {
    AdvanceCommitOk(delivered, h, n);
    ApplyCommittedOk(delivered, h, AdvanceCommit(n));
  }

  /* ---- Answers to AppendEntries ---- */

  lemma CursorFrame(delivered: set<(Id, nat, Id)>, h: History, n: Node, n': Node)
    requires NodeOk(delivered, h, n)
    requires n' == n.(matchIndex := n'.matchIndex, nextIndex := n'.nextIndex)
    requires LocalOk(n') && MatchesOk(h, n')
    ensures NodeOk(delivered, h, n')
  {
    LogFrame(h, n, n');
    ClientsFrame(h, n, n');
    BallotFrame(delivered, h, n, n');
    forall q | q in n'.voteRequests
      ensures VoteRequestOk(n', q)
    {
      assert VoteRequestOk(n, q);
    }
  }

  lemma AcknowledgeOk(delivered: set<(Id, nat, Id)>, h: History, n: Node, p: Id, index: nat)
    requires HistoryOk(h) && NodeOk(delivered, h, n) && n.status == Leader && p in n.peers
    requires Ack(p, n.term, index) in h.acks
    ensures NodeOk(delivered, h, Acknowledge(n, p, index)) && index <= |n.log| && n.matchIndex[p] <= |n.log|
  {
    hide HistoryOk, LogOk, ClientsOk, SentOk, VotingOk, CandidacyOk, CountOk;
    var n' := Acknowledge(n, p, index);
    AckInRange(h, n, p, index);
    if n.matchIndex[p] > 0 {
      AckInRange(h, n, p, n.matchIndex[p]);
    }
    CursorFrame(delivered, h, n, n');
  }

  lemma AckInRange(h: History, n: Node, p: Id, index: nat)
    requires HistoryOk(h) && OfficeOk(h, n) && n.status == Leader && Ack(p, n.term, index) in h.acks
    ensures index <= |n.log|
  {
    assert AckOk(h, Ack(p, n.term, index));
  }

  lemma BackOffOk(delivered: set<(Id, nat, Id)>, h: History, n: Node, p: Id, prevIndex: nat)
    requires NodeOk(delivered, h, n) && n.status == Leader && p in n.peers
    ensures NodeOk(delivered, h, BackOff(n, p, prevIndex))
  {
    CursorFrame(delivered, h, n, BackOff(n, p, prevIndex));
  }
}
