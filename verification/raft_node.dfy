/**
 The Raft node as the source writes it: fields updated in place by event-loop handlers.
 Each method's contract is the step function of `RaftProtocol` with the same name.
 */
module RaftNodes {
  import opened SetFacts
  import opened Wrappers
  import opened KeyValue
  import opened RaftLog
  import opened RaftProtocol

  /** What taking office means field by field. */
  lemma OfficeTaken(n: Node, m: Node)
    requires m == n.(status := Leader, leaderId := Some(n.id), timerArmed := false, inFlight := {},
                     nextIndex := m.nextIndex, matchIndex := m.matchIndex)
    requires m.nextIndex.Keys == n.peers && m.matchIndex.Keys == n.peers
    requires forall p :: p in n.peers ==> m.nextIndex[p] == |n.log| + 1 && m.matchIndex[p] == 0
    ensures m == RaftProtocol.TakeOffice(n)
  {
    var t := RaftProtocol.TakeOffice(n);
    assert t.nextIndex.Keys == n.peers && t.matchIndex.Keys == n.peers;
    assert forall p :: p in n.peers ==> m.nextIndex[p] == t.nextIndex[p];
    assert forall p :: p in n.peers ==> m.matchIndex[p] == t.matchIndex[p];
    assert m.nextIndex == t.nextIndex;
    assert m.matchIndex == t.matchIndex;
  }

  /** What applying one entry means field by field. */
  lemma OneApplied(n: Node, m: Node)
    requires n.applied < |n.log|
    requires m == n.(applied := m.applied, values := m.values, pending := m.pending, answered := m.answered)
    requires m.applied == n.applied + 1 && m.pending == n.pending - {m.applied}
    requires var (values, outcome) := Applied(n.values, n.log[n.applied].command);
             m.values == values &&
             m.answered == if m.applied in n.pending
                           then n.answered[n.pending[m.applied] := ResultOf(m.applied, n.log[n.applied].command, outcome)]
                           else n.answered
    ensures m == ApplyOne(n)
  {
    hide Applied, ResultOf;
  }

  /** The node once the peers in `done` have been sent to. */
  ghost function SentTo(n: Node, done: set<Id>): Node
    requires n.status == Leader && CursorsInRange(n)
  {
    n.(inFlight := n.inFlight + done,
       appendRequests := n.appendRequests + set p | p in done && p !in n.inFlight :: RequestFor(n, p))
  }

  /** Sending does not change what is sent to the next peer. */
  lemma SameRequest(n: Node, m: Node, p: Id)
    requires n.status == Leader && CursorsInRange(n)
    requires m == n.(inFlight := m.inFlight, appendRequests := m.appendRequests)
    ensures CursorsInRange(m) && RequestFor(m, p) == RequestFor(n, p)
  {
  }

  lemma OneMoreRequest(n: Node, done: set<Id>, p: Id)
    requires n.status == Leader && CursorsInRange(n)
    ensures (set q | q in done + {p} && q !in n.inFlight :: RequestFor(n, q))
         == (set q | q in done && q !in n.inFlight :: RequestFor(n, q))
            + if p in n.inFlight then {} else {RequestFor(n, p)}
  {
    hide RequestFor, CursorsInRange;
  }

  lemma SentToOneMore(n: Node, done: set<Id>, p: Id)
    requires n.status == Leader && CursorsInRange(n) && p !in done
    ensures CursorsInRange(SentTo(n, done))
    ensures RaftProtocol.ReplicateTo(SentTo(n, done), p) == SentTo(n, done + {p})
  {
    hide RequestFor, CursorsInRange;
    var m := SentTo(n, done);
    SameRequest(n, m, p);
    OneMoreRequest(n, done, p);
    if p in n.inFlight {
      assert n.inFlight + (done + {p}) == m.inFlight;
    } else {
      assert n.inFlight + (done + {p}) == m.inFlight + {p};
      var before := set q | q in done && q !in n.inFlight :: RequestFor(n, q);
      assert n.appendRequests + (before + {RequestFor(n, p)}) == m.appendRequests + {RequestFor(m, p)};
    }
  }

  lemma SentToNone(n: Node)
    requires n.status == Leader && CursorsInRange(n)
    ensures SentTo(n, {}) == n
  {
    hide RequestFor;
  }

  lemma SentToAll(n: Node)
    requires n.status == Leader && CursorsInRange(n)
    ensures SentTo(n, n.peers) == ReplicateToAll(n)
  {
    hide RequestFor;
  }

  class RaftNode {
    const id: Id
    const peers: set<Id>
    const logStore: LogStore
    const machine: StateMachine
    var term: nat
    var votedFor: Option<Id>
    var status: Status
    var leaderId: Option<Id>
    var votes: nat
    var timerArmed: bool
    var commit: nat
    var applied: nat
    var nextIndex: map<Id, nat>
    var matchIndex: map<Id, nat>
    var inFlight: set<Id>
    var pending: map<nat, Future>
    var submitted: seq<Command>
    var answered: map<Future, CommandResult>
    var voteRequests: set<VoteRequest>
    var appendRequests: set<AppendRequest>

    ghost function View(): Node
      reads this, logStore, machine
    {
      Node(id, peers, term, votedFor, status, leaderId, votes, timerArmed, logStore.entries, commit, applied,
           machine.values, nextIndex, matchIndex, inFlight, pending, submitted, answered, voteRequests, appendRequests)
    }

    constructor (id: Id, peers: set<Id>)
      ensures View() == Initial(id, peers) && fresh(logStore) && fresh(machine)
    {
      this.id, this.peers := id, peers;
      var log := new LogStore();
      var values := new StateMachine();
      logStore, machine := log, values;
      term, votedFor, status, leaderId, votes, timerArmed := 0, None, Follower, None, 0, true;
      commit, applied := 0, 0;
      nextIndex, matchIndex, inFlight := map[], map[], {};
      pending, submitted, answered := map[], [], map[];
      voteRequests, appendRequests := {}, {};
    }

    method SubmitCommand(c: Command) returns (future: Future)
      requires CursorsInRange(View()) && commit <= |logStore.entries|
      modifies this, logStore, machine
      ensures View() == Submit(old(View()), c)
      ensures future == |old(submitted)|
    {
      future := |submitted|;
      submitted := submitted + [c];
      if status != Leader {
        answered := answered[future := NotLeader];
        return;
      }
      var index := logStore.Append(LogEntry(term, c));
      pending := pending[index := future];
      assert View() == Enqueue(old(View()), c);
      ReplicateToAllPeers();
      AdvanceAndApply();
    }

    /** The pair of calls that ends both a client command and a successful response. */
    method AdvanceAndApply()
      requires commit <= |logStore.entries|
      modifies this, machine
      ensures View() == Settle(old(View()))
    {
      ScanInRange(View(), |logStore.entries|);
      AdvanceCommitIndex();
      var _ := ApplyCommitted();
    }

    method OnElectionTimeout()
      modifies this
      ensures View() == RaftProtocol.OnElectionTimeout(old(View()))
    {
      if timerArmed {
        StartElectionRound();
      }
    }

    method StartElectionRound()
      modifies this
      ensures View() == StartElection(old(View()))
    {
      StandAsCandidate();
      assert View() == Candidacy(old(View()));
      hide RaftProtocol.BecomeLeader, RequestVotes, Candidacy;
      if votes >= Majority(|peers| + 1) {
        BecomeLeader();
        return;
      }
      AskForVotes();
    }

    method StandAsCandidate()
      modifies this`term, this`status, this`votedFor, this`votes, this`leaderId, this`timerArmed
      ensures term == old(term) + 1 && status == Candidate && votedFor == Some(id) && votes == 1
      ensures leaderId == None && timerArmed
    {
      term := term + 1;
      status := Candidate;
      votedFor := Some(id);
      votes := 1;
      leaderId := None;
      timerArmed := true;
    }

    method AskForVotes()
      modifies this`voteRequests
      ensures View() == RequestVotes(old(View()))
    {
      var lastLogIndex := logStore.LastIndex();
      var lastLogTerm := logStore.GetLastTerm();
      var todo := peers;
      while todo != {}
        invariant todo <= peers
        invariant voteRequests == old(voteRequests) +
                    set p | p in peers - todo :: VoteRequest(term, id, p, lastLogIndex, lastLogTerm)
        decreases todo
      {
        ghost var some := Pick(todo);
        var p :| p in todo;
        ghost var done := peers - todo;
        voteRequests := voteRequests + {VoteRequest(term, id, p, lastLogIndex, lastLogTerm)};
        todo := todo - {p};
        assert peers - todo == done + {p};
      }
      assert peers - todo == peers;
    }

    method OnVoteResponse(r: VoteReply)
      modifies this
      ensures View() == OnVoteReply(old(View()), r)
    {
      if r.term > term {
        BecomeFollower(r.term);
        return;
      }
      if status != Candidate || term != r.roundTerm {
        return;
      }
      if r.granted {
        votes := votes + 1;
        if votes >= Majority(|peers| + 1) {
          BecomeLeader();
        }
      }
    }

    method BecomeLeader()
      modifies this
      ensures View() == RaftProtocol.BecomeLeader(old(View()))
    {
      TakeOffice();
      hide RaftProtocol.ReplicateToAll, RaftProtocol.TakeOffice;
      OfficeTaken(old(View()), View());
      ReplicateToAllPeers();
    }

    method TakeOffice()
      modifies this`status, this`leaderId, this`timerArmed, this`nextIndex, this`matchIndex, this`inFlight
      ensures status == Leader && leaderId == Some(id) && !timerArmed && inFlight == {}
      ensures nextIndex.Keys == peers && matchIndex.Keys == peers
      ensures forall p :: p in peers ==> nextIndex[p] == |logStore.entries| + 1 && matchIndex[p] == 0
    {
      status := Leader;
      leaderId := Some(id);
      timerArmed := false;
      var last := logStore.LastIndex();
      nextIndex := map[];
      matchIndex := map[];
      inFlight := {};
      var todo := peers;
      while todo != {}
        invariant todo <= peers && inFlight == {}
        invariant status == Leader && leaderId == Some(id) && !timerArmed
        invariant nextIndex.Keys == peers - todo && matchIndex.Keys == peers - todo
        invariant forall p :: p in peers - todo ==> nextIndex[p] == last + 1 && matchIndex[p] == 0
        decreases todo
      {
        ghost var some := Pick(todo);
        var p :| p in todo;
        nextIndex := nextIndex[p := last + 1];
        matchIndex := matchIndex[p := 0];
        todo := todo - {p};
      }
    }

    method ReplicateToAllPeers()
      requires CursorsInRange(View())
      modifies this
      ensures View() == ReplicateToAll(old(View()))
    {
      if status != Leader {
        return;
      }
      hide RequestFor, CursorsInRange, SentTo, ReplicateToAll, RaftProtocol.ReplicateTo;
      ghost var start := View();
      SentToNone(start);
      SentToAll(start);
      var todo := peers;
      assert peers - todo == {};
      while todo != {}
        invariant todo <= peers && View() == SentTo(start, peers - todo)
        decreases todo
      {
        ghost var some := Pick(todo);
        var p :| p in todo;
        ghost var done := peers - todo;
        SentToOneMore(start, done, p);
        ReplicateTo(p);
        todo := todo - {p};
        assert peers - todo == done + {p};
      }
      assert peers - todo == peers;
    }

    method ReplicateTo(p: Id)
      requires CursorsInRange(View())
      modifies this
      ensures View() == RaftProtocol.ReplicateTo(old(View()), p)
    {
      if status != Leader {
        return;
      }
      if p in inFlight {
        return;
      }
      inFlight := inFlight + {p};
      var last := logStore.LastIndex();
      var next := if p in nextIndex then nextIndex[p] else last + 1;
      var prevIndex := next - 1;
      var prevTerm := 0;
      if prevIndex != 0 {
        var entry := logStore.Get(prevIndex);
        prevTerm := entry.value.term;
      }
      var toSend := logStore.GetEntriesFrom(next);
      appendRequests := appendRequests + {AppendRequest(term, id, p, prevIndex, prevTerm, toSend, commit)};
    }

    method OnAppendEntriesResponse(r: AppendReply)
      requires ReplyInRange(View(), r)
      modifies this, machine
      ensures View() == OnAppendReply(old(View()), r)
    {
      hide RaftProtocol.BecomeFollower, RaftProtocol.ReplicateTo, Settle;
      inFlight := inFlight - {r.from};
      if r.term > term {
        BecomeFollower(r.term);
        return;
      }
      if status != Leader || term != r.roundTerm {
        return;
      }
      ghost var n0 := View();
      if r.success {
        var newMatch := r.prevIndex + r.sentCount;
        RecordMatch(r.from, newMatch);
        ghost var n1 := View();
        AdvanceAndApply();
        SettleFrame(n1);
        var last := logStore.LastIndex();
        if nextIndex[r.from] <= last {
          ReplicateTo(r.from);
        }
      } else {
        var current := if r.from in nextIndex then nextIndex[r.from] else r.prevIndex + 1;
        nextIndex := nextIndex[r.from := Max(1, current - 1)];
        assert View() == BackOff(n0, r.from, r.prevIndex);
        ReplicateTo(r.from);
      }
    }

    method RecordMatch(p: Id, newMatch: nat)
      modifies this`matchIndex, this`nextIndex
      ensures View() == Acknowledge(old(View()), p, newMatch)
    {
      var best := if p in matchIndex && matchIndex[p] >= newMatch then matchIndex[p] else newMatch;
      matchIndex := matchIndex[p := best];
      nextIndex := nextIndex[p := best + 1];
    }

    method CountHolders(k: nat) returns (count: nat)
      ensures count == ReplicatedCount(matchIndex, k)
    {
      count := 1;
      var todo := matchIndex.Keys;
      while todo != {}
        invariant todo <= matchIndex.Keys
        invariant count == 1 + |set p | p in matchIndex.Keys - todo && matchIndex[p] >= k|
        decreases todo
      {
        ghost var some := Pick(todo);
        var p :| p in todo;
        ghost var held := set q | q in matchIndex.Keys - todo && matchIndex[q] >= k;
        todo := todo - {p};
        ghost var held' := set q | q in matchIndex.Keys - todo && matchIndex[q] >= k;
        if matchIndex[p] >= k {
          count := count + 1;
          assert held' == held + {p};
        } else {
          assert held' == held;
        }
      }
      assert Holders(matchIndex, k) == set p | p in matchIndex.Keys - todo && matchIndex[p] >= k;
    }

    method AdvanceCommitIndex()
      modifies this`commit
      ensures View() == AdvanceCommit(old(View()))
    {
      if status != Leader {
        return;
      }
      var k: nat := logStore.LastIndex();
      while k > commit
        invariant k <= |logStore.entries| && commit == old(commit)
        invariant ScanCommit(old(View()), |logStore.entries|) == ScanCommit(old(View()), k)
        decreases k
      {
        var entry := logStore.Get(k);
        if entry.value.term != term {
          return;
        }
        var replicatedCount := CountHolders(k);
        if replicatedCount >= Majority(|peers| + 1) {
          commit := k;
          return;
        }
        k := k - 1;
      }
    }

    /** Whether the loop ends without an exception. */
    method ApplyCommitted() returns (completes: bool)
      modifies this, machine
      ensures (View(), completes) == ApplyUpTo(old(View()))
      ensures old(commit) <= |old(logStore.entries)| ==> completes && View() == RaftProtocol.ApplyCommitted(old(View()))
    {
      hide ApplyOne, Applied, ResultOf;
      ApplyUpToThrows(View());
      completes := true;
      while applied < commit
        invariant commit == old(commit) && logStore.entries == old(logStore.entries)
        invariant ApplyUpTo(View()) == ApplyUpTo(old(View()))
        decreases commit - applied
      {
        if applied >= |logStore.entries| {
          applied := applied + 1;
          completes := false;
          return;
        }
        ghost var before := View();
        ApplyNext();
        OneApplied(before, View());
      }
    }

    /** One turn of the apply loop: apply the next entry and answer the client waiting at its index. */
    method ApplyNext()
      requires applied < |logStore.entries|
      modifies this`applied, this`pending, this`answered, machine
      ensures applied == old(applied) + 1 && pending == old(pending) - {applied}
      ensures var command := logStore.entries[applied - 1].command;
              var (values, outcome) := Applied(old(machine.values), command);
              machine.values == values &&
              answered == if applied in old(pending)
                          then old(answered)[old(pending)[applied] := ResultOf(applied, command, outcome)]
                          else old(answered)
    {
      applied := applied + 1;
      var entry := logStore.Get(applied);
      var waiting := if applied in pending then Some(pending[applied]) else None;
      pending := pending - {applied};
      var command := entry.value.command;
      var outcome := machine.Apply(command);
      match outcome {
        case Value(v) =>
          if waiting.Some? {
            answered := answered[waiting.value := Committed(applied, command.key, v)];
          }
        case UnknownKey =>
          if waiting.Some? {
            answered := answered[waiting.value := Failed(applied, command.key)];
          }
      }
    }

    method BecomeFollower(seenTerm: nat)
      modifies this
      ensures View() == RaftProtocol.BecomeFollower(old(View()), seenTerm)
    {
      if seenTerm > term {
        term := seenTerm;
        votedFor := None;
      }
      status := Follower;
      FailPendingClients();
      timerArmed := true;
    }

    method FailPendingClients()
      modifies this`pending, this`answered
      ensures pending == map[]
      ensures answered == old(answered) + map f | f in old(pending).Values :: NotLeader
    {
      if pending == map[] {
        assert old(pending).Values == {};
        return;
      }
      var todo := pending.Values;
      while todo != {}
        invariant todo <= pending.Values && pending == old(pending)
        invariant answered == old(answered) + map f | f in pending.Values - todo :: NotLeader
        decreases todo
      {
        ghost var some := Pick(todo);
        var f :| f in todo;
        answered := answered[f := NotLeader];
        todo := todo - {f};
      }
      assert pending.Values - todo == pending.Values;
      pending := map[];
    }

    method HandleRequestVote(q: VoteRequest) returns (r: VoteReply)
      modifies this
      ensures (View(), r) == HandleVoteRequest(old(View()), q)
    {
      if q.term < term {
        return VoteReply(id, q.candidate, q.term, term, false);
      }
      if q.term > term {
        BecomeFollower(q.term);
      }
      var upToDate := IsLogUpToDate(q.lastLogTerm, q.lastLogIndex);
      var granted := (votedFor == None || votedFor == Some(q.candidate)) && upToDate;
      if granted {
        votedFor := Some(q.candidate);
        timerArmed := true;
      }
      r := VoteReply(id, q.candidate, q.term, term, granted);
    }

    method IsLogUpToDate(candidateLastTerm: nat, candidateLastIndex: nat) returns (r: bool)
      ensures r == LogUpToDate(candidateLastTerm, candidateLastIndex, logStore.entries)
    {
      var ourLastTerm := logStore.GetLastTerm();
      var ourLastIndex := logStore.LastIndex();
      if candidateLastTerm != ourLastTerm {
        return candidateLastTerm > ourLastTerm;
      }
      r := candidateLastIndex >= ourLastIndex;
    }

    method HandleAppendEntries(m: AppendRequest) returns (r: Option<AppendReply>)
      modifies this, logStore, machine
      ensures (View(), r) == TryAppend(old(View()), m)
      ensures KeepsCommitted(old(View()), m) ==> r.Some? && (View(), r.value) == HandleAppend(old(View()), m)
    {
      hide ApplyUpTo, RaftProtocol.Recognise, Merge, KeepsCommitted, HandleAppend;
      if KeepsCommitted(View(), m) {
        TryAppendDefined(View(), m);
      }
      if m.term < term {
        return Some(AppendReply(id, m.leader, m.term, m.prevIndex, |m.entries|, term, false));
      }
      Recognise(m);
      var last := logStore.LastIndex();
      var fits := m.prevIndex <= last;
      if fits && m.prevIndex > 0 {
        var entry := logStore.Get(m.prevIndex);
        fits := entry.value.term == m.prevTerm;
      }
      if !fits {
        return Some(AppendReply(id, m.leader, m.term, m.prevIndex, |m.entries|, term, false));
      }
      var completes := Accept(m);
      r := if completes then Some(AppendReply(id, m.leader, m.term, m.prevIndex, |m.entries|, term, true)) else None;
    }

    method Recognise(m: AppendRequest)
      modifies this
      ensures View() == RaftProtocol.Recognise(old(View()), m)
    {
      hide RaftProtocol.BecomeFollower;
      if m.term > term || status != Follower {
        BecomeFollower(m.term);
      }
      leaderId := Some(m.leader);
      timerArmed := true;
    }

    method Accept(m: AppendRequest) returns (completes: bool)
      requires PrevMatches(logStore.entries, m.prevIndex, m.prevTerm)
      modifies this, logStore, machine
      ensures (View(), completes)
           == ApplyUpTo(LearnCommit(MergeInto(old(View()), m), m.leaderCommit, m.prevIndex + |m.entries|))
      ensures term == old(term)
    {
      hide ApplyUpTo, Merge;
      MergeEntries(m.prevIndex, m.entries);
      var idx := m.prevIndex + |m.entries|;
      assert View() == MergeInto(old(View()), m);
      if m.leaderCommit > commit {
        commit := Min(m.leaderCommit, idx);
      }
      ApplyUpToThrows(View());
      completes := ApplyCommitted();
    }

    /** The entry loop of the append handler. */
    method MergeEntries(prevIndex: nat, entries: Log)
      requires prevIndex <= |logStore.entries|
      modifies logStore
      ensures logStore.entries == Merge(old(logStore.entries), prevIndex, entries)
    {
      var idx := prevIndex;
      for k := 0 to |entries|
        invariant idx == prevIndex + k <= |logStore.entries|
        invariant Merge(logStore.entries, idx, entries[k..]) == Merge(old(logStore.entries), prevIndex, entries)
      {
        ghost var before := logStore.entries;
        idx := idx + 1;
        var entry := entries[k];
        assert entries[k..][0] == entry && entries[k..][1..] == entries[k + 1..];
        var last := logStore.LastIndex();
        if idx <= last {
          var present := logStore.Get(idx);
          if present.value.term == entry.term {
            continue;
          }
          logStore.TruncateFrom(idx);
        }
        assert logStore.entries == before[..idx - 1];
        var end := logStore.Append(entry);
      }
    }
  }
}
