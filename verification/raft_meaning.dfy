/**
 What each handler of a node does, said of the node before and the node after in Raft's own terms: who is voted for,
 what is sent, how cursors and indices move. It is a second description of the protocol to hold its functions to.
 */
module RaftMeaning {
  import opened SetFacts
  import opened Wrappers
  import opened KeyValue
  import opened RaftLog
  import opened RaftProtocol

  /* ---- Majorities ---- */

  /** The least number of nodes that is more than half: with one fewer, two disjoint sets of voters would fit. */
  lemma MajorityIsLeast(size: nat)
    ensures 2 * Majority(size) > size && 2 * (Majority(size) - 1) <= size
  {
  }

  /* ---- Comparing logs ---- */

  /** The election restriction: the log with the later last term is ahead, and of two with the same last term the longer. */
  predicate Behind(log: Log, lastTerm: nat, lastIndex: nat) {
    log != [] && (lastTerm < log[|log| - 1].term || (lastTerm == log[|log| - 1].term && lastIndex < |log|))
  }

  lemma UpToDateMeans(lastTerm: nat, lastIndex: nat, log: Log)
    ensures LogUpToDate(lastTerm, lastIndex, log) <==> !Behind(log, lastTerm, lastIndex)
  {
  }

  /** Of any two logs at least one is up to date for the other, and a later last term is, whatever the lengths. */
  lemma UpToDateIsTotal(a: Log, b: Log)
    ensures LogUpToDate(LastTerm(a), |a|, b) || LogUpToDate(LastTerm(b), |b|, a)
    ensures LastTerm(a) > LastTerm(b) ==> LogUpToDate(LastTerm(a), |a|, b) && !LogUpToDate(LastTerm(b), |b|, a)
    ensures LastTerm(a) == LastTerm(b) ==> (LogUpToDate(LastTerm(a), |a|, b) <==> |a| >= |b|)
  {
  }

  /* ---- Votes ---- */

  /** This node may still vote for the candidate in this term. */
  predicate FreeToVote(n: Node, term: nat, candidate: Id) {
    term > n.term || (term == n.term && (n.votedFor == None || n.votedFor == Some(candidate)))
  }

  /** A vote is granted exactly to a candidate of a current or later term that is not behind and has no rival in the term. */
  lemma VoteMeans(n: Node, q: VoteRequest)
    ensures var (n', r) := HandleVoteRequest(n, q);
            && r.from == n.id && r.to == q.candidate && r.roundTerm == q.term
            && (r.granted <==> FreeToVote(n, q.term, q.candidate) && !Behind(n.log, q.lastLogTerm, q.lastLogIndex))
            && r.term == n'.term == (if q.term > n.term then q.term else n.term)
            && n'.votedFor == (if r.granted then Some(q.candidate) else if q.term > n.term then None else n.votedFor)
            && n'.status == (if q.term > n.term then Follower else n.status)
            && n'.log == n.log && n'.commit == n.commit && n'.applied == n.applied && n'.values == n.values
            && (r.granted || q.term > n.term ==> n'.timerArmed) && (!r.granted && q.term <= n.term ==> n' == n)
  {
  }

  /** With no other vote given in a term, of two nodes that ask each other in it one at least is granted. */
  lemma SomeoneIsGranted(n: Node, m: Node, q: VoteRequest, p: VoteRequest)
    requires q == VoteRequest(q.term, m.id, n.id, |m.log|, LastTerm(m.log)) && q.term > n.term
    requires p == VoteRequest(p.term, n.id, m.id, |n.log|, LastTerm(n.log)) && p.term > m.term
    ensures HandleVoteRequest(n, q).1.granted || HandleVoteRequest(m, p).1.granted
  {
    VoteMeans(n, q);
    VoteMeans(m, p);
    hide HandleVoteRequest;
  }

  /* ---- Elections ---- */

  /** The request with which this candidacy asks p. */
  function Ballot(n: Node, term: nat, p: Id): VoteRequest {
    VoteRequest(term, n.id, p, |n.log|, if n.log == [] then 0 else n.log[|n.log| - 1].term)
  }

  /** A live timer starts the next term: the node votes for itself and asks every peer, or leads at once if it is alone. */
  lemma TimeoutMeans(n: Node)
    requires n.timerArmed
    ensures var n' := OnElectionTimeout(n);
            && n'.term == n.term + 1 && n'.votedFor == Some(n.id) && n'.votes == 1 && n'.log == n.log
            && (n.peers != {} ==>
                  && n'.status == Candidate && n'.timerArmed && n'.leaderId == None
                  && n'.appendRequests == n.appendRequests
                  && forall q :: q in n'.voteRequests <==>
                       q in n.voteRequests || (q.to in n.peers && q == Ballot(n, n.term + 1, q.to)))
            && (n.peers == {} ==> n'.status == Leader && n'.voteRequests == n.voteRequests)
  {
    hide BecomeLeader;
    var c := Candidacy(n);
    if n.peers == {} {
      BecomeLeaderFrame(c);
      BecomeLeaderVotes(c);
    } else {
      var p := Pick(n.peers);
      NotEmpty(n.peers, p);
      forall q
        ensures q in RequestVotes(c).voteRequests <==>
                  q in n.voteRequests || (q.to in n.peers && q == Ballot(n, n.term + 1, q.to))
      {
      }
    }
  }

  lemma NotEmpty(s: set<Id>, x: Id)
    requires x in s
    ensures |s| >= 1
  {
  }

  lemma BecomeLeaderVotes(n: Node)
    ensures BecomeLeader(n).votes == n.votes && BecomeLeader(n).votedFor == n.votedFor
            && BecomeLeader(n).voteRequests == n.voteRequests && BecomeLeader(n).peers == n.peers
  {
    hide TakeOffice, ReplicateToAll, CursorsInRange;
    TakeOfficeInRange(n);
    TakeOfficeFrame(n);
    ReplicateToAllFrame(TakeOffice(n));
  }

  lemma TakeOfficeInRange(n: Node)
    ensures CursorsInRange(TakeOffice(n))
  {
  }

  /** The heartbeat with which a new leader announces itself to p. */
  function Announcement(n: Node, p: Id): AppendRequest {
    AppendRequest(n.term, n.id, p, |n.log|, if n.log == [] then 0 else n.log[|n.log| - 1].term, [], n.commit)
  }

  /** Taking office: every cursor right behind the log, nothing known of any peer, and an announcement on its way to each. */
  lemma OfficeMeans(n: Node)
    ensures var n' := BecomeLeader(n);
            && n'.status == Leader && n'.leaderId == Some(n.id) && !n'.timerArmed && n'.inFlight == n.peers
            && n'.nextIndex.Keys == n.peers && n'.matchIndex.Keys == n.peers
            && (forall p :: p in n.peers ==> n'.nextIndex[p] == |n.log| + 1 && n'.matchIndex[p] == 0)
            && forall m :: m in n'.appendRequests <==> m in n.appendRequests || (m.to in n.peers && m == Announcement(n, m.to))
  {
    TakeOfficeInRange(n);
    var t := TakeOffice(n);
    forall p | p in n.peers
      ensures RequestFor(t, p) == Announcement(n, p)
    {
    }
    var sent := set p | p in t.peers && p !in t.inFlight :: RequestFor(t, p);
    forall m
      ensures m in sent <==> m.to in n.peers && m == Announcement(n, m.to)
    {
      if m.to in n.peers && m == Announcement(n, m.to) {
        assert m == RequestFor(t, m.to);
      }
    }
  }

  /** A vote counts only for the candidacy it was given to, and more than half of the cluster elects. */
  lemma VoteReplyMeans(n: Node, v: VoteReply)
    ensures var n' := OnVoteReply(n, v);
            var counts := v.term <= n.term && n.status == Candidate && v.roundTerm == n.term && v.granted;
            && (v.term > n.term ==> n'.term == v.term && n'.status == Follower && n'.votedFor == None)
            && (v.term <= n.term && !counts ==> n' == n)
            && (counts ==> n'.votes == n.votes + 1 && n'.term == n.term
                           && n'.status == if 2 * (n.votes + 1) > |n.peers| + 1 then Leader else Candidate)
  {
    hide BecomeLeader;
    BecomeLeaderFrame(n.(votes := n.votes + 1));
    BecomeLeaderVotes(n.(votes := n.votes + 1));
  }

  /* ---- Replication ---- */

  /**
   The request a leader has for p: everything from p's cursor on, behind the entry before it, and how far the leader has
   committed, whether or not there are entries to send.
   */
  predicate IsRequestFor(n: Node, p: Id, m: AppendRequest)
    requires p in n.nextIndex && 1 <= n.nextIndex[p] <= |n.log| + 1
  {
    var next := n.nextIndex[p];
    && m.term == n.term && m.leader == n.id && m.to == p
    && m.prevIndex == next - 1 && m.prevTerm == (if next == 1 then 0 else n.log[next - 2].term)
    && m.entries == n.log[next - 1..] && m.leaderCommit == n.commit
  }

  lemma RequestMeans(n: Node, p: Id)
    requires n.status == Leader && CursorsInRange(n) && p in n.nextIndex
    ensures IsRequestFor(n, p, RequestFor(n, p))
    ensures forall m :: IsRequestFor(n, p, m) ==> m == RequestFor(n, p)
  {
  }

  /** A heartbeat sends its request to exactly the peers with no call in flight, and a node that does not lead sends nothing. */
  lemma HeartbeatMeans(n: Node)
    requires CursorsInRange(n) && n.nextIndex.Keys == n.peers
    ensures var n' := ReplicateToAll(n);
            if n.status != Leader then n' == n
            else
              && n'.inFlight == n.inFlight + n.peers
              && (forall m :: m in n'.appendRequests && m !in n.appendRequests ==>
                    m.to in n.peers && m.to !in n.inFlight && IsRequestFor(n, m.to, m) && m.leaderCommit == n.commit)
              && forall p, m :: p in n.peers && p !in n.inFlight && IsRequestFor(n, p, m) ==> m in n'.appendRequests
  {
    hide IsRequestFor, RequestFor;
    if n.status == Leader {
      forall p | p in n.peers
        ensures IsRequestFor(n, p, RequestFor(n, p)) && RequestFor(n, p).to == p && RequestFor(n, p).leaderCommit == n.commit
        ensures forall m :: IsRequestFor(n, p, m) ==> m == RequestFor(n, p)
      {
        RequestMeans(n, p);
        RequestIsTo(n, p, RequestFor(n, p));
      }
    }
  }

  lemma RequestIsTo(n: Node, p: Id, m: AppendRequest)
    requires p in n.nextIndex && 1 <= n.nextIndex[p] <= |n.log| + 1 && IsRequestFor(n, p, m)
    ensures m.to == p && m.leaderCommit == n.commit
  {
  }

  lemma SendMeans(n: Node, p: Id)
    requires CursorsInRange(n) && p in n.nextIndex
    ensures var n' := ReplicateTo(n, p);
            if n.status != Leader || p in n.inFlight then n' == n
            else n'.inFlight == n.inFlight + {p}
                 && forall m :: m in n'.appendRequests <==> m in n.appendRequests || IsRequestFor(n, p, m)
  {
    hide IsRequestFor, RequestFor;
    if n.status == Leader {
      RequestMeans(n, p);
    }
  }

  /* ---- A leader hears from a follower ---- */

  /** Success in the leader's own term: what p is known to hold, where its cursor goes, and when more is sent at once. */
  lemma SuccessMeans(n: Node, r: AppendReply)
    requires ReplyInRange(n, r) && n.status == Leader && r.roundTerm == n.term && r.term <= n.term && r.success
    ensures r.from in n.matchIndex
    ensures var n' := OnAppendReply(n, r);
            var p, held := r.from, r.prevIndex + r.sentCount;
            && p in n'.matchIndex && n'.matchIndex[p] == (if n.matchIndex[p] >= held then n.matchIndex[p] else held)
            && p in n'.nextIndex && n'.nextIndex[p] == n'.matchIndex[p] + 1
            && n'.nextIndex.Keys == n.nextIndex.Keys
            && (forall q :: q != p && q in n.nextIndex ==> q in n'.nextIndex && n'.nextIndex[q] == n.nextIndex[q])
            && (forall q :: q != p && q in n.matchIndex ==> q in n'.matchIndex && n'.matchIndex[q] == n.matchIndex[q])
            && n'.log == n.log && n'.term == n.term && n'.status == Leader && n'.timerArmed == n.timerArmed
            && n'.applied >= n'.commit >= n.commit
            && (p in n'.inFlight <==> n'.matchIndex[p] < |n'.log|)
            && (forall m :: m in n'.appendRequests <==>
                  m in n.appendRequests || (n'.matchIndex[p] < |n'.log| && IsRequestFor(n', p, m)))
  {
    hide Settle, IsRequestFor;
    var n0 := n.(inFlight := n.inFlight - {r.from});
    var n1 := Acknowledge(n0, r.from, r.prevIndex + r.sentCount);
    SettleFrame(n1);
    var n2 := RaftProtocol.Settle(n1);
    SendMeans(n2, r.from);
    SameRequests(n2, OnAppendReply(n, r), r.from);
  }

  lemma SameRequests(n: Node, n': Node, p: Id)
    requires n' == n.(inFlight := n'.inFlight, appendRequests := n'.appendRequests)
    requires p in n.nextIndex && 1 <= n.nextIndex[p] <= |n.log| + 1
    ensures forall m :: IsRequestFor(n', p, m) <==> IsRequestFor(n, p, m)
  {
  }

  /** Failure in the leader's own term: the cursor goes back by one and the longer request goes out. */
  lemma FailureMeans(n: Node, r: AppendReply)
    requires ReplyInRange(n, r) && n.status == Leader && r.roundTerm == n.term && r.term <= n.term && !r.success
    ensures r.from in n.nextIndex
    ensures var n' := OnAppendReply(n, r);
            var p := r.from;
            && n'.matchIndex == n.matchIndex && n'.commit == n.commit && n'.applied == n.applied && n'.log == n.log
            && n'.term == n.term && n'.status == Leader && n'.timerArmed == n.timerArmed
            && n'.nextIndex == n.nextIndex[p := if n.nextIndex[p] <= 2 then 1 else n.nextIndex[p] - 1]
            && p in n'.inFlight && 1 <= n'.nextIndex[p] <= |n'.log| + 1
            && (forall m :: m in n'.appendRequests <==> m in n.appendRequests || IsRequestFor(n', p, m))
  {
    hide IsRequestFor;
    var b := BackOff(n.(inFlight := n.inFlight - {r.from}), r.from, r.prevIndex);
    SendMeans(b, r.from);
    SameRequests(b, OnAppendReply(n, r), r.from);
  }

  /** Replies from another time change nothing but the call in flight, and a later term deposes. */
  lemma OtherReplyMeans(n: Node, r: AppendReply)
    requires ReplyInRange(n, r) && (r.term > n.term || n.status != Leader || r.roundTerm != n.term)
    ensures var n' := OnAppendReply(n, r);
            && n'.inFlight == n.inFlight - {r.from} && n'.log == n.log && n'.appendRequests == n.appendRequests
            && n'.commit == n.commit && n'.applied == n.applied
            && (r.term > n.term ==> n'.term == r.term && n'.status == Follower && n'.votedFor == None && n'.timerArmed)
            && (r.term <= n.term ==> n' == n.(inFlight := n'.inFlight))
  {
  }

  /* ---- A follower hears from a leader ---- */

  /** The consistency check. */
  predicate Fits(n: Node, m: AppendRequest) {
    m.term >= n.term && m.prevIndex <= |n.log| && (m.prevIndex > 0 ==> n.log[m.prevIndex - 1].term == m.prevTerm)
  }

  /**
   A request of a current or later term makes its sender the leader this node knows. It succeeds exactly when the entry
   before it is there, and then everything up to what the leader has committed and the request covers is applied.
   */
  lemma AppendMeans(n: Node, m: AppendRequest)
    requires KeepsCommitted(n, m)
    ensures var (n', r) := HandleAppend(n, m);
            && r.from == n.id && r.to == m.leader && r.roundTerm == m.term
            && r.prevIndex == m.prevIndex && r.sentCount == |m.entries|
            && r.term == n'.term == (if m.term > n.term then m.term else n.term)
            && (r.success <==> Fits(n, m))
            && (m.term < n.term ==> n' == n)
            && (m.term >= n.term ==> n'.leaderId == Some(m.leader) && n'.status == Follower && n'.timerArmed
                                     && n'.votedFor == if m.term > n.term then None else n.votedFor)
            && (!r.success ==> n'.log == n.log && n'.commit == n.commit && n'.applied == n.applied && n'.values == n.values)
            && (r.success ==>
                  var covered := m.prevIndex + |m.entries|;
                  && n'.commit == (if m.leaderCommit <= n.commit then n.commit
                                   else if m.leaderCommit <= covered then m.leaderCommit else covered)
                  && n'.log == Merge(n.log, m.prevIndex, m.entries)
                  && n'.applied == if n'.commit >= n.applied then n'.commit else n.applied)
  {
    hide ApplyCommitted, Merge;
    if m.term >= n.term {
      FollowsMeans(n, m);
      if Accepts(n, m) {
        ApplyFrame(LearnCommit(MergeInto(Recognise(n, m), m), m.leaderCommit, m.prevIndex + |m.entries|));
      }
    }
  }

  lemma FollowsMeans(n: Node, m: AppendRequest)
    requires m.term >= n.term
    ensures var k := Recognise(n, m);
            && k == n.(term := m.term, votedFor := k.votedFor, status := Follower, pending := k.pending,
                       answered := k.answered, leaderId := Some(m.leader), timerArmed := true)
            && k.votedFor == if m.term > n.term then None else n.votedFor
  {
  }

  /** How many of the entries are there already, term by term. */
  ghost predicate Present(log: Log, index: nat, entries: Log, c: nat) {
    && c <= |entries| && index + c <= |log|
    && (forall j :: 0 <= j < c ==> log[index + j].term == entries[j].term)
    && (c < |entries| ==> index + c == |log| || log[index + c].term != entries[c].term)
  }

  /** What is there already stays, with whatever follows it; from the first entry that is not, the log is what was sent. */
  lemma {:induction false} MergeMeans(log: Log, index: nat, entries: Log) returns (c: nat)
    requires index <= |log|
    ensures Present(log, index, entries, c)
    ensures Merge(log, index, entries) == if c == |entries| then log else log[..index + c] + entries[c..]
    decreases |entries|
  {
    if entries == [] {
      c := 0;
    } else if index < |log| && log[index].term == entries[0].term {
      var c1 := MergeMeans(log, index + 1, entries[1..]);
      c := c1 + 1;
      assert entries[1..][c1..] == entries[c..];
      assert forall j :: 0 < j < c ==> entries[j] == entries[1..][j - 1];
    } else {
      c := 0;
      var cut := log[..index] + [entries[0]];
      var c1 := MergeMeans(cut, index + 1, entries[1..]);
      assert cut + entries[1..] == log[..index] + entries;
      assert entries[0..] == entries;
    }
  }

  /* ---- Clients ---- */

  /** Applying an entry answers the client that waits for it with what its command did, and no one else. */
  lemma ResultMeans(n: Node)
    requires n.applied < |n.log|
    ensures var n' := ApplyOne(n);
            var i, c := n.applied + 1, n.log[n.applied].command;
            && n'.applied == i && (forall k :: k in n'.pending <==> k in n.pending && k != i)
            && (forall k :: k in n'.pending ==> n'.pending[k] == n.pending[k])
            && (i !in n.pending ==> n'.answered == n.answered)
            && (i in n.pending ==>
                  && n.pending[i] in n'.answered && n'.answered - {n.pending[i]} == n.answered - {n.pending[i]}
                  && Tells(n.values, c, n'.values, i, n'.answered[n.pending[i]]))
            && LeadsTo(n.values, c, n'.values)
  {
    hide Carries, Tells;
    var i, c := n.applied + 1, n.log[n.applied].command;
    AppliedCarries(n.values, c);
    TellsResult(n.values, c, i);
  }

  /**
   The answer about entry i: the value its key has after it, or that the key was not there to change. In either case it
   names the key.
   */
  ghost predicate Tells(before: Values, c: Command, after: Values, i: nat, answer: CommandResult) {
    if c.action != Set && c.key !in before then answer == Failed(i, c.key) && after == before
    else c.key in after && answer == Committed(i, c.key, after[c.key])
  }

  lemma TellsResult(before: Values, c: Command, i: nat)
    ensures Tells(before, c, Applied(before, c).0, i, ResultOf(i, c, Applied(before, c).1))
  {
  }

  /** Stepping down tells every waiting client that this node does not lead, and no one else anything. */
  lemma StepDownMeans(n: Node, seenTerm: nat)
    ensures var n' := BecomeFollower(n, seenTerm);
            && n'.term == (if seenTerm > n.term then seenTerm else n.term) && n'.status == Follower && n'.timerArmed
            && n'.votedFor == (if seenTerm > n.term then None else n.votedFor)
            && n'.pending == map[] && n'.log == n.log && n'.commit == n.commit && n'.applied == n.applied
            && (forall f :: f in n'.answered <==> f in n.answered || exists i :: i in n.pending && n.pending[i] == f)
            && (forall i :: i in n.pending ==> n'.answered[n.pending[i]] == NotLeader)
            && (forall f :: f in n.answered && (forall i :: i in n.pending ==> n.pending[i] != f) ==>
                  n'.answered[f] == n.answered[f])
  {
    assert forall f :: f in n.pending.Values <==> exists i :: i in n.pending && n.pending[i] == f;
    assert forall i :: i in n.pending ==> n.pending[i] in n.pending.Values;
  }

  /** A leader appends the command in its term and sends at once to every peer with no call in flight. */
  lemma SubmitMeans(n: Node, c: Command)
    requires n.status == Leader && CursorsInRange(n) && n.commit <= |n.log| && n.nextIndex.Keys == n.peers
    ensures var n', queued := Submit(n, c), n.(log := n.log + [LogEntry(n.term, c)]);
            && n'.log == queued.log && n'.term == n.term && n'.status == Leader && n'.submitted == n.submitted + [c]
            && n'.inFlight == n.inFlight + n.peers && n'.nextIndex == n.nextIndex && n'.matchIndex == n.matchIndex
            && (forall m :: m in n'.appendRequests && m !in n.appendRequests ==>
                  m.to in n.peers && m.to !in n.inFlight && IsRequestFor(queued, m.to, m))
            && forall p, m :: p in n.peers && p !in n.inFlight && IsRequestFor(queued, p, m) ==> m in n'.appendRequests
  {
    hide Settle, ReplicateToAll, IsRequestFor;
    var queued, n1 := n.(log := n.log + [LogEntry(n.term, c)]), Enqueue(n, c);
    HeartbeatMeans(n1);
    ReplicateToAllFrame(n1);
    SettleFrame(ReplicateToAll(n1));
    forall p | p in n.peers
      ensures forall m :: IsRequestFor(queued, p, m) <==> IsRequestFor(n1, p, m)
    {
      SameLogRequests(queued, n1, p);
    }
  }

  lemma SameLogRequests(n: Node, n': Node, p: Id)
    requires n'.term == n.term && n'.id == n.id && n'.log == n.log && n'.commit == n.commit && n'.nextIndex == n.nextIndex
    requires p in n.nextIndex && 1 <= n.nextIndex[p] <= |n.log| + 1
    ensures forall m :: IsRequestFor(n', p, m) <==> IsRequestFor(n, p, m)
  {
  }
}
