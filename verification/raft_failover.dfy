/**
 A run of three nodes: a leader replicates one entry and not the next, is replaced, and has its log cut and extended by its
 successor. Both its clients are told NOT_LEADER; the command of one is committed all the same, that of the other is gone.
 */
module RaftFailover {
  import opened Wrappers
  import opened KeyValue
  import opened RaftLog
  import opened RaftProtocol
  import opened RaftInvariant
  import opened RaftCluster
  import opened RaftSafety

  const IDS: set<Id> := {1, 2, 3}

  lemma TwoPeers(i: Id)
    requires i in IDS
    ensures |IDS - {i}| == 2
  {
    var a, b := if i == 1 then 2 else 1, if i == 3 then 2 else 3;
    assert IDS - {i} == {a, b};
  }

  /** Nothing of the clients or the state machine has happened yet. */
  ghost predicate Unused(n: Node) {
    n.commit == 0 && n.applied == 0 && n.values == map[] && n.pending == map[] && n.submitted == [] && n.answered == map[]
  }

  ghost predicate Is(n: Node, id: Id, term: nat, status: Status, log: Log) {
    n.id == id && id in IDS && n.peers == IDS - {id} && n.term == term && n.status == status && n.log == log
  }

  /** A new leader with a call in flight to each peer; `base` entries were there when it was elected. */
  ghost predicate Seated(n: Node, base: nat) {
    && n.status == Leader && n.inFlight == n.peers && 1 <= |n.peers| <= 2 && base <= |n.log|
    && n.matchIndex == (map p | p in n.peers :: 0) && n.nextIndex == (map p | p in n.peers :: base + 1)
  }

  /* ---- Handlers ---- */

  lemma Stands(n: Node, id: Id, term: nat, status: Status, log: Log)
    requires Is(n, id, term, status, log) && n.timerArmed
    ensures var m := OnElectionTimeout(n);
            && Is(m, id, term + 1, Candidate, log) && m.votes == 1 && (Unused(n) ==> Unused(m))
            && forall p :: p in m.peers ==> VoteRequest(term + 1, id, p, |log|, LastTerm(log)) in m.voteRequests
  {
    TwoPeers(id);
  }

  lemma Wins(n: Node, v: VoteReply)
    requires n.status == Candidate && n.votes == 1 && 1 <= |n.peers| <= 2
    requires v.granted && v.roundTerm == n.term && v.term <= n.term
    ensures var m := OnVoteReply(n, v);
            && Seated(m, |n.log|) && m.id == n.id && m.peers == n.peers && m.term == n.term && m.log == n.log
            && (Unused(n) ==> Unused(m))
  {
    var n1 := n.(votes := n.votes + 1);
    BecomeLeaderFrame(n1);
    TakeOfficeFrame(n1);
    SentToBoth(TakeOffice(n1));
  }

  lemma SentToBoth(n: Node)
    requires n.status == Leader && n.inFlight == {} && CursorsInRange(n)
    ensures ReplicateToAll(n).inFlight == n.peers
    ensures ReplicateToAll(n).matchIndex == n.matchIndex && ReplicateToAll(n).nextIndex == n.nextIndex
    ensures ReplicateToAll(n).values == n.values && ReplicateToAll(n).peers == n.peers
  {
    hide RequestFor;
  }

  /** With no peer known to hold anything, nothing is committable. */
  lemma {:induction false} ScanNothing(n: Node, k: nat)
    requires k <= |n.log| && |n.peers| >= 1 && n.matchIndex == (map p | p in n.peers :: 0)
    ensures ScanCommit(n, k) == n.commit
    decreases k
  {
    if k > n.commit && n.log[k - 1].term == n.term {
      assert Holders(n.matchIndex, k) == {};
      ScanNothing(n, k - 1);
    }
  }

  /** With both calls in flight a command is only appended. */
  lemma CommandWaits(n: Node, base: nat, c: Command)
    requires Seated(n, base) && n.commit == 0 && n.applied == 0
    ensures CursorsInRange(n) && Submit(n, c) == Enqueue(n, c)
  {
    hide RequestFor;
    var n1 := Enqueue(n, c);
    assert ReplicateToAll(n1).appendRequests == n1.appendRequests && ReplicateToAll(n1).inFlight == n1.inFlight;
    ScanNothing(n1, |n1.log|);
  }

  /** A failed call and the next heartbeat put the current request to p in flight. */
  lemma Resends(n: Node, base: nat, p: Id)
    requires Seated(n, base) && p in n.peers
    ensures var n1 := OnAppendFailure(n, p);
            && CursorsInRange(n1) && CursorsInRange(n)
            && ReplicateToAll(n1) == n.(appendRequests := n.appendRequests + {RequestFor(n, p)})
  {
    var n1 := OnAppendFailure(n, p);
    var m := ReplicateToAll(n1);
    assert RequestFor(n1, p) == RequestFor(n, p);
    hide RequestFor;
    assert (set q | q in n.peers && q !in n1.inFlight :: RequestFor(n1, q)) == {RequestFor(n, p)};
    assert m.inFlight == n.inFlight;
  }

  /** The first request of an entry to an empty log. */
  lemma TakesFirst(n: Node, m: AppendRequest, e: LogEntry)
    requires n.log == [] && n.status == Follower && n.term == m.term && n.commit == 0 && n.applied == 0
    requires m.prevIndex == 0 && m.entries == [e] && m.leaderCommit == 0
    ensures KeepsCommitted(n, m)
    ensures HandleAppend(n, m).0 == n.(leaderId := Some(m.leader), timerArmed := true, log := [e])
  {
    assert Merge([], 0, [e]) == Merge([e], 1, [e][1..]) == [e];
  }

  /** A conflicting second entry is cut off and the new leader's put in its place. */
  lemma Overwrites(n: Node, m: AppendRequest, first: LogEntry, lost: LogEntry, e: LogEntry)
    requires n.log == [first, lost] && n.status == Follower && n.term == m.term && n.commit == 0 && n.applied == 0
    requires m.prevIndex == 1 && m.prevTerm == first.term && m.entries == [e] && m.leaderCommit == 0 && lost.term != e.term
    ensures KeepsCommitted(n, m)
    ensures HandleAppend(n, m).0 == n.(leaderId := Some(m.leader), timerArmed := true, log := [first, e])
    ensures HandleAppend(n, m).1 == AppendReply(n.id, m.leader, m.term, 1, 1, m.term, true)
  {
    assert [first, lost][..1] + [e] == [first, e];
    assert Merge([first, lost], 1, [e]) == Merge([first, e], 2, [e][1..]) == [first, e];
  }

  /** One acknowledgement makes a majority of three: both entries are committed and applied. */
  lemma CommitsBoth(n: Node, r: AppendReply, c: Command, d: Command, first: LogEntry, second: LogEntry)
    requires Seated(n, 1) && n.log == [first, second] && second.term == n.term && n.commit == 0 && n.applied == 0
    requires n.values == map[] && n.pending == map[2 := 0] && n.answered == map[]
    requires first.command == c && second.command == d && c.action == Set && d.action == Set
    requires r.success && r.roundTerm == n.term && r.term <= n.term && r.from in n.peers && r.prevIndex == 1 && r.sentCount == 1
    ensures ReplyInRange(n, r)
    ensures var m := OnAppendReply(n, r);
            && m.commit == 2 && m.applied == 2 && m.log == n.log && m.status == Leader && m.term == n.term
            && m.values == map[c.key := c.value][d.key := d.value] && m.answered == map[0 := Committed(2, d.key, d.value)]
  {
    var n0 := n.(inFlight := n.inFlight - {r.from});
    var n1 := Acknowledge(n0, r.from, 2);
    assert r.from in Holders(n1.matchIndex, 2);
    assert Holders(n1.matchIndex, 2) == {r.from};
    assert ScanCommit(n1, 2) == 2;
    var n2 := AdvanceCommit(n1);
    var n3 := ApplyOne(n2);
    var n4 := ApplyOne(n3);
    assert n3.pending == map[2 := 0] && n4.answered == map[0 := Committed(2, d.key, d.value)];
    assert ApplyCommitted(n4) == n4 && ApplyCommitted(n3) == n4 && ApplyCommitted(n2) == n4;
    assert Settle(n1) == n4;
  }

  /* ---- Node 1 is elected ---- */

  ghost predicate Members(c: Cluster) {
    c.nodes.Keys == IDS
  }

  ghost predicate Fresh(n: Node, id: Id) {
    Is(n, id, 0, Follower, []) && Unused(n) && n.timerArmed && n.votedFor == None
  }

  ghost predicate Started(c: Cluster) {
    Members(c) && (forall i :: i in IDS ==> Fresh(c.nodes[i], i)) && c.delivered == {}
  }

  ghost predicate Standing(c: Cluster) {
    && Members(c) && Is(c.nodes[1], 1, 1, Candidate, []) && c.nodes[1].votes == 1 && Unused(c.nodes[1])
    && VoteRequest(1, 1, 2, 0, 0) in c.nodes[1].voteRequests
    && Fresh(c.nodes[2], 2) && Fresh(c.nodes[3], 3) && c.delivered == {}
  }

  ghost predicate Granted(c: Cluster) {
    && Members(c) && Is(c.nodes[1], 1, 1, Candidate, []) && c.nodes[1].votes == 1 && Unused(c.nodes[1])
    && VoteReply(2, 1, 1, 1, true) in c.voteReplies
    && Is(c.nodes[2], 2, 1, Follower, []) && Unused(c.nodes[2]) && c.nodes[2].timerArmed
    && Fresh(c.nodes[3], 3) && c.delivered == {}
  }

  ghost predicate Elected(c: Cluster) {
    && Members(c) && Is(c.nodes[1], 1, 1, Leader, []) && Seated(c.nodes[1], 0) && Unused(c.nodes[1])
    && Is(c.nodes[2], 2, 1, Follower, []) && Unused(c.nodes[2]) && c.nodes[2].timerArmed
    && Fresh(c.nodes[3], 3) && c.delivered == {(1, 1, 2)}
  }

  lemma Stand(c: Cluster) returns (c': Cluster)
    requires Started(c)
    ensures Next(c, ElectionTimeout(1), c') && Standing(c')
  {
    hide OnElectionTimeout;
    assert Fresh(c.nodes[1], 1) && Fresh(c.nodes[2], 2) && Fresh(c.nodes[3], 3);
    Stands(c.nodes[1], 1, 0, Follower, []);
    assert 2 in OnElectionTimeout(c.nodes[1]).peers;
    c' := After(c, ElectionTimeout(1));
  }

  /** A follower with nobody waiting that holds no more than the candidate grants its first vote of a later term. */
  lemma FirstVote(n: Node, q: VoteRequest)
    requires n.status == Follower && q.term > n.term && LogUpToDate(q.lastLogTerm, q.lastLogIndex, n.log) && n.pending == map[]
    ensures var (m, v) := HandleVoteRequest(n, q);
            && v == VoteReply(n.id, q.candidate, q.term, q.term, true)
            && m == n.(term := q.term, votedFor := Some(q.candidate), timerArmed := true)
  {
  }

  lemma Grant(c: Cluster) returns (c': Cluster)
    requires Standing(c)
    ensures Next(c, DeliverVoteRequest(VoteRequest(1, 1, 2, 0, 0)), c') && Granted(c')
  {
    hide HandleVoteRequest;
    var q := VoteRequest(1, 1, 2, 0, 0);
    FirstVote(c.nodes[2], q);
    c' := After(c, DeliverVoteRequest(q));
  }

  lemma Win(c: Cluster) returns (c': Cluster)
    requires Granted(c)
    ensures Next(c, DeliverVoteReply(VoteReply(2, 1, 1, 1, true)), c') && Elected(c')
  {
    hide OnVoteReply, Seated;
    TwoPeers(1);
    Wins(c.nodes[1], VoteReply(2, 1, 1, 1, true));
    c' := After(c, DeliverVoteReply(VoteReply(2, 1, 1, 1, true)));
  }

  /* ---- It replicates one entry of two ---- */

  function Commands(log: Log): seq<Command> {
    seq(|log|, i requires 0 <= i < |log| => log[i].command)
  }

  /** Node 1 leads with these entries, whose clients wait for them. */
  ghost predicate FirstLeader(n: Node, log: Log, pending: map<nat, Future>) {
    && Is(n, 1, 1, Leader, log) && Seated(n, 0) && n.pending == pending && n.submitted == Commands(log)
    && n.answered == map[] && n.commit == 0 && n.applied == 0 && n.values == map[]
  }

  ghost predicate Others(c: Cluster, copied: Log) {
    && Members(c) && Is(c.nodes[2], 2, 1, Follower, copied) && Unused(c.nodes[2]) && c.nodes[2].timerArmed
    && Fresh(c.nodes[3], 3) && c.delivered == {(1, 1, 2)}
  }

  lemma TakeCommand(c: Cluster, log: Log, pending: map<nat, Future>, copied: Log, a: Command) returns (c': Cluster)
    requires Others(c, copied) && FirstLeader(c.nodes[1], log, pending)
    ensures Next(c, ClientCommand(1, a), c') && Others(c', copied)
    ensures FirstLeader(c'.nodes[1], log + [LogEntry(1, a)], pending[|log| + 1 := |log|])
  {
    hide Submit, CursorsInRange;
    CommandWaits(c.nodes[1], 0, a);
    c' := After(c, ClientCommand(1, a));
  }

  lemma Resend(c: Cluster, e: LogEntry, pending: map<nat, Future>) returns (c1: Cluster, c': Cluster)
    requires Others(c, []) && FirstLeader(c.nodes[1], [e], pending)
    ensures Next(c, AppendFailed(1, 2), c1) && Next(c1, Heartbeat(1), c')
    ensures Others(c', []) && FirstLeader(c'.nodes[1], [e], pending)
    ensures AppendRequest(1, 1, 2, 0, 0, [e], 0) in c'.nodes[1].appendRequests
  {
    hide ReplicateToAll, CursorsInRange, RequestFor;
    Resends(c.nodes[1], 0, 2);
    FirstRequest(c.nodes[1], 2, e);
    c1 := After(c, AppendFailed(1, 2));
    c' := After(c1, Heartbeat(1));
  }

  lemma FirstRequest(n: Node, p: Id, e: LogEntry)
    requires Seated(n, 0) && p in n.peers && n.log == [e]
    ensures CursorsInRange(n) && RequestFor(n, p) == AppendRequest(n.term, n.id, p, 0, 0, [e], n.commit)
  {
  }

  lemma Copy(c: Cluster, e: LogEntry, pending: map<nat, Future>) returns (c': Cluster)
    requires Others(c, []) && FirstLeader(c.nodes[1], [e], pending)
    requires AppendRequest(1, 1, 2, 0, 0, [e], 0) in c.nodes[1].appendRequests
    ensures Next(c, DeliverAppend(AppendRequest(1, 1, 2, 0, 0, [e], 0)), c')
    ensures Others(c', [e]) && FirstLeader(c'.nodes[1], [e], pending)
  {
    hide HandleAppend, KeepsCommitted, Seated;
    var m := AppendRequest(1, 1, 2, 0, 0, [e], 0);
    TakesFirst(c.nodes[2], m, e);
    c' := After(c, DeliverAppend(m));
  }

  /* ---- Node 2 replaces it ---- */

  /** Node 1 has been deposed: its clients have been refused, its log still has both entries. */
  ghost predicate Deposed(n: Node, log: Log) {
    && Is(n, 1, 2, Follower, log) && n.commit == 0 && n.applied == 0
    && n.answered == map[0 := NotLeader, 1 := NotLeader] && |n.submitted| == 2
  }

  ghost predicate Challenged(c: Cluster, e: LogEntry, lost: LogEntry) {
    && Members(c) && FirstLeader(c.nodes[1], [e, lost], map[1 := 0, 2 := 1])
    && Is(c.nodes[2], 2, 2, Candidate, [e]) && c.nodes[2].votes == 1 && Unused(c.nodes[2])
    && VoteRequest(2, 2, 1, 1, e.term) in c.nodes[2].voteRequests && VoteRequest(2, 2, 3, 1, e.term) in c.nodes[2].voteRequests
    && Fresh(c.nodes[3], 3) && c.delivered == {(1, 1, 2)}
  }

  lemma Challenge(c: Cluster, e: LogEntry, lost: LogEntry) returns (c': Cluster)
    requires Others(c, [e]) && FirstLeader(c.nodes[1], [e, lost], map[1 := 0, 2 := 1])
    ensures Next(c, ElectionTimeout(2), c') && Challenged(c', e, lost)
  {
    hide OnElectionTimeout, Seated;
    Stands(c.nodes[2], 2, 1, Follower, [e]);
    assert 1 in OnElectionTimeout(c.nodes[2]).peers && 3 in OnElectionTimeout(c.nodes[2]).peers;
    c' := After(c, ElectionTimeout(2));
  }

  /** The old leader refuses its vote, its log being longer, but steps down. */
  lemma Refuses(n: Node, q: VoteRequest, e: LogEntry, lost: LogEntry)
    requires FirstLeader(n, [e, lost], map[1 := 0, 2 := 1]) && e.term == lost.term == 1
    requires q.term == 2 && q.lastLogIndex == 1 && q.lastLogTerm == 1
    ensures Deposed(HandleVoteRequest(n, q).0, [e, lost])
  {
    hide Seated;
    var waiting := n.pending;
    assert waiting[1] == 0 && waiting[2] == 1;
    assert waiting.Values == {0, 1};
    assert HandleVoteRequest(n, q).0.answered == map[0 := NotLeader, 1 := NotLeader];
  }

  ghost predicate Contested(c: Cluster, e: LogEntry, lost: LogEntry) {
    && Members(c) && Deposed(c.nodes[1], [e, lost])
    && Is(c.nodes[2], 2, 2, Candidate, [e]) && c.nodes[2].votes == 1 && Unused(c.nodes[2])
    && VoteRequest(2, 2, 3, 1, e.term) in c.nodes[2].voteRequests
    && Fresh(c.nodes[3], 3) && c.delivered == {(1, 1, 2)}
  }

  lemma Depose(c: Cluster, e: LogEntry, lost: LogEntry) returns (c': Cluster)
    requires Challenged(c, e, lost) && e.term == lost.term == 1
    ensures Next(c, DeliverVoteRequest(VoteRequest(2, 2, 1, 1, 1)), c') && Contested(c', e, lost)
  {
    hide HandleVoteRequest, FirstLeader, Deposed;
    var q := VoteRequest(2, 2, 1, 1, 1);
    Refuses(c.nodes[1], q, e, lost);
    DeposedId(c.nodes[1], q, e, lost);
    c' := After(c, DeliverVoteRequest(q));
  }

  lemma DeposedId(n: Node, q: VoteRequest, e: LogEntry, lost: LogEntry)
    requires FirstLeader(n, [e, lost], map[1 := 0, 2 := 1]) && Deposed(HandleVoteRequest(n, q).0, [e, lost])
    ensures HandleVoteRequest(n, q).0.id == 1
  {
    hide HandleVoteRequest;
  }

  ghost predicate Supported(c: Cluster, e: LogEntry, lost: LogEntry) {
    && Members(c) && Deposed(c.nodes[1], [e, lost])
    && Is(c.nodes[2], 2, 2, Candidate, [e]) && c.nodes[2].votes == 1 && Unused(c.nodes[2])
    && VoteReply(3, 2, 2, 2, true) in c.voteReplies && c.delivered == {(1, 1, 2)}
  }

  lemma Support(c: Cluster, e: LogEntry, lost: LogEntry) returns (c': Cluster)
    requires Contested(c, e, lost) && e.term == 1
    ensures Next(c, DeliverVoteRequest(VoteRequest(2, 2, 3, 1, 1)), c') && Supported(c', e, lost)
  {
    hide HandleVoteRequest, Deposed;
    var q := VoteRequest(2, 2, 3, 1, 1);
    FirstVote(c.nodes[3], q);
    c' := After(c, DeliverVoteRequest(q));
  }

  /* ---- The new leader commits ---- */

  /** Node 2 leads term 2; `base` is what it had when elected. */
  ghost predicate Succeeded(c: Cluster, e: LogEntry, lost: LogEntry) {
    && Members(c) && Deposed(c.nodes[1], [e, lost])
    && Is(c.nodes[2], 2, 2, Leader, [e]) && Seated(c.nodes[2], 1) && Unused(c.nodes[2])
  }

  lemma Succeed(c: Cluster, e: LogEntry, lost: LogEntry) returns (c': Cluster)
    requires Supported(c, e, lost)
    ensures Next(c, DeliverVoteReply(VoteReply(3, 2, 2, 2, true)), c') && Succeeded(c', e, lost)
  {
    hide OnVoteReply, Seated, Deposed;
    TwoPeers(2);
    Wins(c.nodes[2], VoteReply(3, 2, 2, 2, true));
    c' := After(c, DeliverVoteReply(VoteReply(3, 2, 2, 2, true)));
  }

  ghost predicate SecondLeader(n: Node, e: LogEntry, next: LogEntry) {
    && Is(n, 2, 2, Leader, [e, next]) && Seated(n, 1) && n.commit == 0 && n.applied == 0
    && n.values == map[] && n.pending == map[2 := 0] && n.answered == map[] && n.submitted == [next.command]
  }

  ghost predicate Extended(c: Cluster, e: LogEntry, lost: LogEntry, next: LogEntry) {
    Members(c) && Deposed(c.nodes[1], [e, lost]) && SecondLeader(c.nodes[2], e, next)
  }

  lemma Extend(c: Cluster, e: LogEntry, lost: LogEntry, a: Command) returns (c': Cluster)
    requires Succeeded(c, e, lost)
    ensures Next(c, ClientCommand(2, a), c') && Extended(c', e, lost, LogEntry(2, a))
  {
    hide Submit, CursorsInRange, Deposed;
    CommandWaits(c.nodes[2], 1, a);
    c' := After(c, ClientCommand(2, a));
  }

  lemma SecondRequest(n: Node, p: Id, e: LogEntry, next: LogEntry)
    requires Seated(n, 1) && p in n.peers && n.log == [e, next]
    ensures CursorsInRange(n) && RequestFor(n, p) == AppendRequest(n.term, n.id, p, 1, e.term, [next], n.commit)
  {
  }

  lemma Reach(c: Cluster, e: LogEntry, lost: LogEntry, next: LogEntry) returns (c1: Cluster, c': Cluster)
    requires Extended(c, e, lost, next) && e.term == 1
    ensures Next(c, AppendFailed(2, 1), c1) && Next(c1, Heartbeat(2), c') && Extended(c', e, lost, next)
    ensures AppendRequest(2, 2, 1, 1, 1, [next], 0) in c'.nodes[2].appendRequests
  {
    hide ReplicateToAll, CursorsInRange, RequestFor, Deposed;
    Resends(c.nodes[2], 1, 1);
    SecondRequest(c.nodes[2], 1, e, next);
    c1 := After(c, AppendFailed(2, 1));
    c' := After(c1, Heartbeat(2));
  }

  /** Node 1's second entry has been replaced. */
  ghost predicate Mended(c: Cluster, e: LogEntry, next: LogEntry) {
    && Members(c) && Deposed(c.nodes[1], [e, next]) && SecondLeader(c.nodes[2], e, next)
    && AppendReply(1, 2, 2, 1, 1, 2, true) in c.appendReplies
  }

  lemma Mend(c: Cluster, e: LogEntry, lost: LogEntry, next: LogEntry) returns (c': Cluster)
    requires Extended(c, e, lost, next) && e.term == lost.term == 1 && next.term == 2
    requires AppendRequest(2, 2, 1, 1, 1, [next], 0) in c.nodes[2].appendRequests
    ensures Next(c, DeliverAppend(AppendRequest(2, 2, 1, 1, 1, [next], 0)), c') && Mended(c', e, next)
  {
    hide HandleAppend, KeepsCommitted, Seated;
    var m := AppendRequest(2, 2, 1, 1, 1, [next], 0);
    Overwrites(c.nodes[1], m, e, lost, next);
    c' := After(c, DeliverAppend(m));
  }

  /** Both entries committed and applied by the new leader, both clients of the old one refused. */
  ghost predicate Settled(c: Cluster, a: Command, b: Command, d: Command) {
    && Members(c) && Deposed(c.nodes[1], [LogEntry(1, a), LogEntry(2, d)])
    && var n := c.nodes[2];
    && n.status == Leader && n.term == 2 && n.log == [LogEntry(1, a), LogEntry(2, d)] && n.commit == 2 && n.applied == 2
    && n.values == map[a.key := a.value][d.key := d.value] && n.answered == map[0 := Committed(2, d.key, d.value)]
  }

  lemma Conclude(c: Cluster, a: Command, b: Command, d: Command) returns (c': Cluster)
    requires Mended(c, LogEntry(1, a), LogEntry(2, d)) && a.action == Set && d.action == Set
    ensures Next(c, DeliverAppendReply(AppendReply(1, 2, 2, 1, 1, 2, true)), c') && Settled(c', a, b, d)
  {
    hide OnAppendReply, ReplyInRange, Deposed;
    var r := AppendReply(1, 2, 2, 1, 1, 2, true);
    CommitsBoth(c.nodes[2], r, a, d, LogEntry(1, a), LogEntry(2, d));
    AppendReplyKeepsId(c.nodes[2], r);
    c' := After(c, DeliverAppendReply(r));
  }

  /* ---- The whole run ---- */

  lemma Starts()
    ensures Run(IDS, [InitialCluster(IDS)], []) && Started(InitialCluster(IDS))
  {
  }

  /** The run up to and with this step. */
  ghost predicate Reaches(trace: seq<Cluster>, steps: seq<Step>, c: Cluster) {
    Run(IDS, trace, steps) && trace[|trace| - 1] == c
  }

  lemma Onward(trace: seq<Cluster>, steps: seq<Step>, c: Cluster, s: Step, c': Cluster)
    requires Reaches(trace, steps, c) && Next(c, s, c')
    ensures Reaches(trace + [c'], steps + [s], c')
  {
    hide Next;
    LongerRun(IDS, trace, steps, s, c');
  }

  /** Node 1 leads with one entry copied and one not. */
  lemma FirstTerm(a: Command, b: Command) returns (trace: seq<Cluster>, steps: seq<Step>, c: Cluster)
    ensures Reaches(trace, steps, c) && |steps| == 8
    ensures Others(c, [LogEntry(1, a)])
    ensures FirstLeader(c.nodes[1], [LogEntry(1, a), LogEntry(1, b)], map[1 := 0, 2 := 1])
  {
    hide Next, Reaches, FirstLeader, Started, Standing, Granted;
    var e := LogEntry(1, a);
    c := InitialCluster(IDS);
    trace, steps := [c], [];
    Begin();
    var c1 := Stand(c);
    Onward(trace, steps, c, ElectionTimeout(1), c1);
    var q := VoteRequest(1, 1, 2, 0, 0);
    var c2 := Grant(c1);
    Onward(trace + [c1], steps + [ElectionTimeout(1)], c1, DeliverVoteRequest(q), c2);
    var c3 := Win(c2);
    trace, steps := trace + [c1] + [c2], steps + [ElectionTimeout(1)] + [DeliverVoteRequest(q)];
    Onward(trace, steps, c2, DeliverVoteReply(VoteReply(2, 1, 1, 1, true)), c3);
    trace, steps := trace + [c3], steps + [DeliverVoteReply(VoteReply(2, 1, 1, 1, true))];
    InOffice(c3);
    var c4 := TakeCommand(c3, [], map[], [], a);
    Onward(trace, steps, c3, ClientCommand(1, a), c4);
    trace, steps := trace + [c4], steps + [ClientCommand(1, a)];
    assert [] + [e] == [e] && map[][1 := 0] == map[1 := 0];
    var c5, c6 := Resend(c4, e, map[1 := 0]);
    Onward(trace, steps, c4, AppendFailed(1, 2), c5);
    Onward(trace + [c5], steps + [AppendFailed(1, 2)], c5, Heartbeat(1), c6);
    trace, steps := trace + [c5] + [c6], steps + [AppendFailed(1, 2)] + [Heartbeat(1)];
    var c7 := Copy(c6, e, map[1 := 0]);
    Onward(trace, steps, c6, DeliverAppend(AppendRequest(1, 1, 2, 0, 0, [e], 0)), c7);
    trace, steps := trace + [c7], steps + [DeliverAppend(AppendRequest(1, 1, 2, 0, 0, [e], 0))];
    c := TakeCommand(c7, [e], map[1 := 0], [e], b);
    Onward(trace, steps, c7, ClientCommand(1, b), c);
    assert [e] + [LogEntry(1, b)] == [LogEntry(1, a), LogEntry(1, b)] && map[1 := 0][2 := 1] == map[1 := 0, 2 := 1];
    trace, steps := trace + [c], steps + [ClientCommand(1, b)];
  }

  lemma Begin()
    ensures Reaches([InitialCluster(IDS)], [], InitialCluster(IDS)) && Started(InitialCluster(IDS))
  {
    hide InitialCluster;
    Starts();
  }

  lemma InOffice(c: Cluster)
    requires Elected(c)
    ensures Others(c, []) && FirstLeader(c.nodes[1], [], map[])
  {
  }

  /** Node 2 takes over, mends node 1's log and commits. */
  lemma SecondTerm(trace0: seq<Cluster>, steps0: seq<Step>, c0: Cluster, a: Command, b: Command, d: Command)
    returns (trace: seq<Cluster>, steps: seq<Step>, c: Cluster)
    requires Reaches(trace0, steps0, c0) && Others(c0, [LogEntry(1, a)]) && a.action == Set && d.action == Set
    requires FirstLeader(c0.nodes[1], [LogEntry(1, a), LogEntry(1, b)], map[1 := 0, 2 := 1])
    ensures Reaches(trace, steps, c) && |steps| == |steps0| + 9 && trace0 <= trace && Settled(c, a, b, d)
  {
    hide Next, Reaches, FirstLeader, Others, Challenged, Contested, Supported, Succeeded, Mended, Settled;
    var e, lost, next := LogEntry(1, a), LogEntry(1, b), LogEntry(2, d);
    trace, steps := trace0, steps0;
    var c1 := Challenge(c0, e, lost);
    Onward(trace, steps, c0, ElectionTimeout(2), c1);
    trace, steps := trace + [c1], steps + [ElectionTimeout(2)];
    var c2 := Depose(c1, e, lost);
    Onward(trace, steps, c1, DeliverVoteRequest(VoteRequest(2, 2, 1, 1, 1)), c2);
    trace, steps := trace + [c2], steps + [DeliverVoteRequest(VoteRequest(2, 2, 1, 1, 1))];
    var c3 := Support(c2, e, lost);
    Onward(trace, steps, c2, DeliverVoteRequest(VoteRequest(2, 2, 3, 1, 1)), c3);
    trace, steps := trace + [c3], steps + [DeliverVoteRequest(VoteRequest(2, 2, 3, 1, 1))];
    var c4 := Succeed(c3, e, lost);
    Onward(trace, steps, c3, DeliverVoteReply(VoteReply(3, 2, 2, 2, true)), c4);
    trace, steps := trace + [c4], steps + [DeliverVoteReply(VoteReply(3, 2, 2, 2, true))];
    var c5 := Extend(c4, e, lost, d);
    Onward(trace, steps, c4, ClientCommand(2, d), c5);
    trace, steps := trace + [c5], steps + [ClientCommand(2, d)];
    var c6, c7 := Reach(c5, e, lost, next);
    Onward(trace, steps, c5, AppendFailed(2, 1), c6);
    Onward(trace + [c6], steps + [AppendFailed(2, 1)], c6, Heartbeat(2), c7);
    trace, steps := trace + [c6] + [c7], steps + [AppendFailed(2, 1)] + [Heartbeat(2)];
    var c8 := Mend(c7, e, lost, next);
    Onward(trace, steps, c7, DeliverAppend(AppendRequest(2, 2, 1, 1, 1, [next], 0)), c8);
    trace, steps := trace + [c8], steps + [DeliverAppend(AppendRequest(2, 2, 1, 1, 1, [next], 0))];
    c := Conclude(c8, a, b, d);
    Onward(trace, steps, c8, DeliverAppendReply(AppendReply(1, 2, 2, 1, 1, 2, true)), c);
    trace, steps := trace + [c], steps + [DeliverAppendReply(AppendReply(1, 2, 2, 1, 1, 2, true))];
  }

  /**
   A leader is replaced: at moment 8 node 1 leads term 1 and waits with two clients, at moment 17 node 2 leads term 2. Node 1
   has told both its clients NOT_LEADER and its second entry is cut off; yet the first is committed and applied.
   */
  lemma LeaderIsReplaced(a: Command, b: Command, d: Command) returns (trace: seq<Cluster>, steps: seq<Step>)
    requires a.action == Set && d.action == Set
    ensures Run(IDS, trace, steps) && |steps| == 17
    ensures var n := trace[8].nodes;
            && 1 in n && n[1].status == Leader && n[1].term == 1 && n[1].log == [LogEntry(1, a), LogEntry(1, b)]
            && n[1].pending == map[1 := 0, 2 := 1] && n[1].submitted == [a, b]
    ensures var n := trace[17].nodes;
            && 1 in n && 2 in n && n[2].status == Leader && n[2].term == 2
            && n[1].log == n[2].log == [LogEntry(1, a), LogEntry(2, d)]
            && n[1].answered == map[0 := NotLeader, 1 := NotLeader]
            && n[2].commit == n[2].applied == 2 && n[2].values == map[a.key := a.value][d.key := d.value]
            && n[2].answered == map[0 := Committed(2, d.key, d.value)]
  {
    hide Next, Others, FirstLeader, Settled;
    var trace8, steps8, c8 := FirstTerm(a, b);
    var c17;
    trace, steps, c17 := SecondTerm(trace8, steps8, c8, a, b, d);
    FirstLeaderFacts(c8, a, b);
    SettledFacts(c17, a, b, d);
    assert trace[8] == trace8[8] == c8;
  }

  lemma FirstLeaderFacts(c: Cluster, a: Command, b: Command)
    requires Others(c, [LogEntry(1, a)]) && FirstLeader(c.nodes[1], [LogEntry(1, a), LogEntry(1, b)], map[1 := 0, 2 := 1])
    ensures 1 in c.nodes
    ensures var n := c.nodes[1];
            && n.status == Leader && n.term == 1 && n.log == [LogEntry(1, a), LogEntry(1, b)]
            && n.pending == map[1 := 0, 2 := 1] && n.submitted == [a, b]
  {
  }

  lemma SettledFacts(c: Cluster, a: Command, b: Command, d: Command)
    requires Settled(c, a, b, d)
    ensures var n := c.nodes;
            && 1 in n && 2 in n && n[2].status == Leader && n[2].term == 2
            && n[1].log == n[2].log == [LogEntry(1, a), LogEntry(2, d)]
            && n[1].answered == map[0 := NotLeader, 1 := NotLeader]
            && n[2].commit == n[2].applied == 2 && n[2].values == map[a.key := a.value][d.key := d.value]
            && n[2].answered == map[0 := Committed(2, d.key, d.value)]
  {
  }
}
