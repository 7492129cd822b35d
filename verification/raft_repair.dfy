/**
 What the leader's bookkeeping achieves: the commit scan finds the greatest committable index,
 and backing off one entry per rejection brings a follower's log in line with the leader's.
 */
module RaftRepair {
  import opened KeyValue
  import opened RaftLog
  import opened RaftProtocol
  import opened RaftHistory
  import opened RaftGrowth
  import opened RaftInvariant
  import opened RaftMeaning
  import opened RaftReplication
  import opened RaftCluster
  import opened RaftSafety

  /* ---- The commit scan against its specification ---- */

  /** Figure 3's rule: N > commitIndex, a majority of matchIndex at least N, and an entry of the current term at N. */
  ghost predicate Committable(n: Node, k: nat) {
    n.commit < k <= |n.log| && n.log[k - 1].term == n.term &&
    ReplicatedCount(n.matchIndex, k) >= Majority(|n.peers| + 1)
  }

  ghost predicate GreatestCommittable(n: Node, c: nat) {
    (c == n.commit || Committable(n, c)) && forall k: nat :: Committable(n, k) ==> k <= c
  }

  /** With ascending terms up to the current one, stopping at the first other term misses nothing. */
  lemma {:induction false} ScanFindsGreatest(n: Node, k: nat)
    requires k <= |n.log| && Ascending(n.log) && forall j :: 0 <= j < |n.log| ==> n.log[j].term <= n.term
    requires forall j: nat :: Committable(n, j) ==> j <= k
    ensures GreatestCommittable(n, ScanCommit(n, k))
    decreases k
  {
    if k > n.commit && n.log[k - 1].term == n.term && !Committable(n, k) {
      ScanFindsGreatest(n, k - 1);
    } else if k > n.commit && n.log[k - 1].term != n.term {
      assert forall i :: 0 <= i < k ==> n.log[i].term <= n.log[k - 1].term < n.term;
    }
  }

  /** Without ascending terms the early break can miss a committable index. */
  lemma BreakNeedsAscendingTerms(n: Node, c: Command)
    requires n.log == [LogEntry(2, c), LogEntry(1, c)] && n.term == 2 && n.commit == 0 && n.peers == {}
    ensures ScanCommit(n, |n.log|) == 0 && Committable(n, 1)
  {
  }

  /** In every run, a success reply moves the commit index to the greatest committable index, or leaves it. */
  lemma SuccessCommitsGreatest(ids: set<Id>, trace: seq<Cluster>, steps: seq<Step>, k: nat, r: AppendReply)
    requires Run(ids, trace, steps) && k < |trace| && Enabled(trace[k], DeliverAppendReply(r))
    requires var n := trace[k].nodes[r.to];
             n.status == Leader && n.term == r.roundTerm && r.term <= n.term && r.success
    ensures var n := trace[k].nodes[r.to];
            && ReplyInRange(n, r)
            && GreatestCommittable(Acknowledge(n, r.from, r.prevIndex + r.sentCount), OnAppendReply(n, r).commit)
  {
    hide HistoryOk, NodeOk, Run, Next, Inv;
    var hs := RunHasChronicle(ids, trace, steps);
    NoExceptions(ids, trace, steps, k, DeliverAppendReply(r));
    NodeFacts(ids, trace, hs, k, r.to);
    var n := trace[k].nodes[r.to];
    var n1 := Acknowledge(n.(inFlight := n.inFlight - {r.from}), r.from, r.prevIndex + r.sentCount);
    SettleCommitsGreatest(n1);
    hide Settle, GreatestCommittable;
    SettleFrame(n1);
    SameRows(n1, Acknowledge(n, r.from, r.prevIndex + r.sentCount), OnAppendReply(n, r).commit);
  }

  lemma SettleCommitsGreatest(n: Node)
    requires n.status == Leader && n.commit <= |n.log|
    requires Ascending(n.log) && forall j :: 0 <= j < |n.log| ==> n.log[j].term <= n.term
    ensures GreatestCommittable(n, Settle(n).commit)
  {
    ScanFindsGreatest(n, |n.log|);
    ScanInRange(n, |n.log|);
    ApplyFrame(AdvanceCommit(n));
  }

  /** Only log, commit index and the peers' rows decide what is committable. */
  lemma SameRows(n: Node, n': Node, c: nat)
    requires n'.log == n.log && n'.commit == n.commit && n'.term == n.term
    requires n'.matchIndex == n.matchIndex && n'.peers == n.peers
    ensures GreatestCommittable(n, c) <==> GreatestCommittable(n', c)
  {
    assert forall j: nat :: Committable(n, j) <==> Committable(n', j);
  }

  /** So does a command: alone in its cluster a leader commits it at once, and otherwise nothing new is committable. */
  lemma SubmissionCommitsGreatest(ids: set<Id>, trace: seq<Cluster>, steps: seq<Step>, k: nat, i: Id, command: Command)
    requires Run(ids, trace, steps) && k < |trace| && Enabled(trace[k], ClientCommand(i, command))
    requires trace[k].nodes[i].status == Leader
    ensures var n := trace[k].nodes[i];
            && CursorsInRange(n) && n.commit <= |n.log|
            && GreatestCommittable(Enqueue(n, command), Submit(n, command).commit)
  {
    hide HistoryOk, NodeOk, Run, Next, Inv, ReplicateToAll;
    var hs := RunHasChronicle(ids, trace, steps);
    NoExceptions(ids, trace, steps, k, ClientCommand(i, command));
    NodeFacts(ids, trace, hs, k, i);
    var n := trace[k].nodes[i];
    var n1 := Enqueue(n, command);
    ReplicateToAllFrame(n1);
    SettleCommitsGreatest(ReplicateToAll(n1));
    SameRows(n1, ReplicateToAll(n1), Submit(n, command).commit);
  }

  /* ---- Backing off ---- */

  /** Node i leads and p is a peer that has seen no later term. */
  ghost predicate Leads(c: Cluster, i: Id, p: Id) {
    && i in c.nodes && p in c.nodes && i != p
    && c.nodes[i].status == Leader && c.nodes[p].term <= c.nodes[i].term
  }

  lemma CursorOf(c: Cluster, h: History, i: Id, p: Id)
    requires Inv(c, h) && Leads(c, i, p)
    ensures CursorsInRange(c.nodes[i]) && p in c.nodes[i].nextIndex && p in c.nodes[i].peers
    ensures 1 <= c.nodes[i].nextIndex[p] <= |c.nodes[i].log| + 1
    ensures c.nodes[i].id == i && c.nodes[p].id == p && NextFor(c.nodes[i], p) == c.nodes[i].nextIndex[p]
  {
    hide HistoryOk, NodeOk, Inv;
    AtNode(c, h, i);
    AtNode(c, h, p);
    PeersOf(c.delivered, h, c.nodes[i]);
  }

  lemma PeersOf(delivered: set<(Id, nat, Id)>, h: History, n: Node)
    requires NodeOk(delivered, h, n)
    ensures n.peers == h.ids - {n.id}
  {
  }

  /** A follower in no later term can only reject what has an entry before it; the leader then steps back by one. */
  lemma RejectionStepsBack(l: Node, f: Node, m: AppendRequest)
    requires l.status == Leader && CursorsInRange(l) && f.id in l.nextIndex && f.term <= l.term
    requires m == RequestFor(l, f.id) && KeepsCommitted(f, m) && !Accepts(f, m)
    ensures var r := HandleAppend(f, m).1;
            && !r.success && r.from == f.id && r.to == l.id && r.roundTerm == l.term && r.term == l.term
            && HandleAppend(f, m).0.term == l.term && HandleAppend(f, m).0.log == f.log
            && l.nextIndex[f.id] >= 2
            && BackOff(l, f.id, r.prevIndex).nextIndex[f.id] == l.nextIndex[f.id] - 1
  {
  }

  /** After a rejection the leader has the next, longer request in flight. */
  lemma RetryInFlight(l: Node, r: AppendReply)
    requires l.status == Leader && ReplyInRange(l, r) && r.roundTerm == l.term && r.term == l.term && !r.success
    ensures var l' := OnAppendReply(l, r);
            && l'.nextIndex == BackOff(l, r.from, r.prevIndex).nextIndex
            && l'.id == l.id && l'.status == Leader && l'.term == l.term && l'.log == l.log && CursorsInRange(l')
            && RequestFor(l', r.from) in l'.appendRequests
  {
    var b := BackOff(l.(inFlight := l.inFlight - {r.from}), r.from, r.prevIndex);
    assert RequestFor(ReplicateTo(b, r.from), r.from) == RequestFor(b, r.from);
  }

  /** An accepted request leaves the whole of the sender's log at the front of the follower's. */
  lemma AcceptanceRepairs(c: Cluster, h: History, i: Id, p: Id, m: AppendRequest)
    requires Inv(c, h) && Leads(c, i, p) && CursorsInRange(c.nodes[i]) && m == RequestFor(c.nodes[i], p)
    requires m in c.nodes[i].appendRequests
    requires KeepsCommitted(c.nodes[p], m) && Accepts(c.nodes[p], m)
    ensures c.nodes[i].log <= HandleAppend(c.nodes[p], m).0.log
  {
    hide HistoryOk, NodeOk, Inv, Merge, HandleAppend, CommitJustified;
    AtNode(c, h, i);
    AtNode(c, h, p);
    OwnLog(c.delivered, h, c.nodes[i]);
    SentAppend(c, h, m);
    var f := c.nodes[p];
    MergeOutcome(h, f, m);
    var l := c.nodes[i].log;
    assert SenderPrefix(h, m) == l by {
      assert m.prevIndex + |m.entries| == |l|;
    }
    AcceptFrame(f, m);
  }

  lemma OwnLog(delivered: set<(Id, nat, Id)>, h: History, n: Node)
    requires NodeOk(delivered, h, n) && n.status == Leader
    ensures n.term in h.elections && h.elections[n.term].log == n.log
  {
  }

  /** How many of these steps deliver a rejection. */
  function Rejections(steps: seq<Step>): nat {
    if steps == [] then 0
    else (if steps[0].DeliverAppendReply? && !steps[0].r.success then 1 else 0) + Rejections(steps[1..])
  }

  lemma {:induction false} RejectionsAdd(a: seq<Step>, b: seq<Step>)
    ensures Rejections(a + b) == Rejections(a) + Rejections(b)
    decreases |a|
  {
    if a == [] {
      assert a + b == b;
    } else {
      RejectionsAdd(a[1..], b);
      assert (a + b)[1..] == a[1..] + b;
    }
  }

  /** The leader has its next request to p in flight. */
  ghost predicate Exchanging(c: Cluster, i: Id, p: Id) {
    && Leads(c, i, p) && CursorsInRange(c.nodes[i]) && p in c.nodes[i].nextIndex
    && RequestFor(c.nodes[i], p) in c.nodes[i].appendRequests
  }

  /** In the same term, with the same log, which is now at the front of p's. */
  ghost predicate Repaired(c: Cluster, c': Cluster, i: Id, p: Id) {
    && Leads(c, i, p) && Leads(c', i, p) && c'.nodes[i].term == c.nodes[i].term
    && c'.nodes[i].log == c.nodes[i].log && c'.nodes[i].log <= c'.nodes[p].log
  }

  /** One rejected round trip. */
  lemma RejectedRound(c: Cluster, h: History, i: Id, p: Id) returns (s: Step, c1: Cluster, s1: Step, c': Cluster)
    requires Inv(c, h) && Exchanging(c, i, p) && !Accepts(c.nodes[p], RequestFor(c.nodes[i], p))
    ensures Next(c, s, c1) && Next(c1, s1, c') && Rejections([s]) == 0 && Rejections([s1]) == 1
    ensures Exchanging(c', i, p) && c'.nodes[i].log == c.nodes[i].log && c'.nodes[i].term == c.nodes[i].term
    ensures c.nodes[i].nextIndex[p] >= 2 && c'.nodes[i].nextIndex[p] == c.nodes[i].nextIndex[p] - 1
  {
    hide Inv, HistoryOk, NodeOk, HandleAppend, OnAppendReply, KeepsCommitted, ReplyInRange;
    CursorOf(c, h, i, p);
    var l, f := c.nodes[i], c.nodes[p];
    var m := RequestFor(l, p);
    s := DeliverAppend(m);
    EveryStepDefined(c, h, s);
    RejectionStepsBack(l, f, m);
    AppendKeepsId(f, m);
    c1 := After(c, s);
    var h1 := StepKeepsInv(c, h, s, c1);
    var r := HandleAppend(f, m).1;
    s1 := DeliverAppendReply(r);
    assert c1.nodes[i] == l;
    EveryStepDefined(c1, h1, s1);
    RetryInFlight(l, r);
    c' := After(c1, s1);
  }

  /** The accepted request. */
  lemma AcceptedRequest(c: Cluster, h: History, i: Id, p: Id) returns (s: Step, c': Cluster)
    requires Inv(c, h) && Exchanging(c, i, p) && Accepts(c.nodes[p], RequestFor(c.nodes[i], p))
    ensures Next(c, s, c') && Rejections([s]) == 0 && Repaired(c, c', i, p)
  {
    hide Inv, HistoryOk, NodeOk, HandleAppend, KeepsCommitted;
    CursorOf(c, h, i, p);
    var m := RequestFor(c.nodes[i], p);
    s := DeliverAppend(m);
    EveryStepDefined(c, h, s);
    AcceptanceRepairs(c, h, i, p, m);
    AcceptFrame(c.nodes[p], m);
    c' := After(c, s);
  }

  lemma LastInv(ids: set<Id>, trace: seq<Cluster>, steps: seq<Step>) returns (h: History)
    requires Run(ids, trace, steps)
    ensures |trace| > 0 && Inv(trace[|trace| - 1], h)
  {
    hide Inv, Next;
    var hs := RunHasChronicle(ids, trace, steps);
    h := hs[|hs| - 1];
  }

  /** With a request in flight, at most `nextIndex - 1` rejections precede an acceptance. */
  lemma {:induction false} RetryUntilRepaired(ids: set<Id>, trace: seq<Cluster>, steps: seq<Step>, i: Id, p: Id)
    returns (trace': seq<Cluster>, more: seq<Step>)
    requires Run(ids, trace, steps) && Exchanging(trace[|trace| - 1], i, p)
    ensures Run(ids, trace', steps + more) && trace <= trace'
    ensures Repaired(trace[|trace| - 1], trace'[|trace'| - 1], i, p)
    ensures var next := trace[|trace| - 1].nodes[i].nextIndex[p]; |more| < 2 * next && Rejections(more) < next
    decreases trace[|trace| - 1].nodes[i].nextIndex[p]
  {
    hide Inv, Next, Run, Accepts, Repaired;
    var h := LastInv(ids, trace, steps);
    var c := trace[|trace| - 1];
    NextPositive(c, i, p);
    if Accepts(c.nodes[p], RequestFor(c.nodes[i], p)) {
      var s, c' := AcceptedRequest(c, h, i, p);
      LongerRun(ids, trace, steps, s, c');
      trace', more := trace + [c'], [s];
    } else {
      var s, c1, s1, c2 := RejectedRound(c, h, i, p);
      LongerRun(ids, trace, steps, s, c1);
      LongerRun(ids, trace + [c1], steps + [s], s1, c2);
      var rest;
      trace', rest := RetryUntilRepaired(ids, trace + [c1] + [c2], steps + [s] + [s1], i, p);
      more := [s] + [s1] + rest;
      RejectionsAdd([s], [s1]);
      RejectionsAdd([s] + [s1], rest);
      assert steps + more == steps + [s] + [s1] + rest;
      StillRepaired(c, c2, trace'[|trace'| - 1], i, p);
    }
  }

  lemma NextPositive(c: Cluster, i: Id, p: Id)
    requires Exchanging(c, i, p)
    ensures c.nodes[i].nextIndex[p] >= 1 && Rejections([]) == 0
  {
  }

  /**
   Back-off repairs: any run with i leading can go on, with a failed call, a heartbeat and at most `nextIndex` exchanges
   between the two, to where the leader's log is at the front of that of any follower p of no later term.
   */
  lemma BackOffRepairs(ids: set<Id>, trace: seq<Cluster>, steps: seq<Step>, i: Id, p: Id)
    returns (trace': seq<Cluster>, more: seq<Step>)
    requires Run(ids, trace, steps) && Leads(trace[|trace| - 1], i, p)
    ensures Run(ids, trace', steps + more) && trace <= trace'
    ensures Repaired(trace[|trace| - 1], trace'[|trace'| - 1], i, p)
    ensures var l := trace[|trace| - 1].nodes[i];
            p in l.nextIndex && |more| < 2 * l.nextIndex[p] + 2 && Rejections(more) < l.nextIndex[p]
  {
    hide Inv, Next, Run, Repaired;
    var h := LastInv(ids, trace, steps);
    var c := trace[|trace| - 1];
    var s, s1 := AppendFailed(i, p), Heartbeat(i);
    var c1, c2 := FailedCall(c, h, i, p);
    LongerRun(ids, trace, steps, s, c1);
    LongerRun(ids, trace + [c1], steps + [s], s1, c2);
    var rest;
    trace', rest := RetryUntilRepaired(ids, trace + [c1] + [c2], steps + [s] + [s1], i, p);
    more := [s] + [s1] + rest;
    RejectionsAdd([s] + [s1], rest);
    NoRejection(s, s1);
    assert steps + more == steps + [s] + [s1] + rest;
    StillRepaired(c, c2, trace'[|trace'| - 1], i, p);
  }

  /** p has all of leader i's log, and has applied everything i has committed. */
  ghost predicate Informed(c: Cluster, i: Id, p: Id) {
    && Leads(c, i, p) && c.nodes[i].log <= c.nodes[p].log
    && c.nodes[i].commit <= c.nodes[p].commit == c.nodes[p].applied <= |c.nodes[p].log|
    && c.nodes[p].values == Replay(c.nodes[p].log[..c.nodes[p].applied])
  }

  /** Any request the leader has for a follower with its whole log tells the follower all that is committed. */
  lemma CommitSpreads(c: Cluster, h: History, i: Id, p: Id) returns (s: Step, c': Cluster)
    requires Inv(c, h) && Exchanging(c, i, p) && c.nodes[i].log <= c.nodes[p].log
    ensures Next(c, s, c') && s.DeliverAppend? && Informed(c', i, p)
    ensures c'.nodes[i] == c.nodes[i]
  {
    hide Inv, HistoryOk, NodeOk, HandleAppend, KeepsCommitted, ReplyInRange;
    CursorOf(c, h, i, p);
    AtNode(c, h, i);
    var l, f := c.nodes[i], c.nodes[p];
    var m := RequestFor(l, p);
    s := DeliverAppend(m);
    EveryStepDefined(c, h, s);
    RequestMeans(l, p);
    CoversLog(l, f, p, m);
    hide RequestFor, IsRequestFor;
    AcceptanceRepairs(c, h, i, p, m);
    AppendMeans(f, m);
    AppendKeepsId(f, m);
    c' := After(c, s);
    var h' := StepKeepsInv(c, h, s, c');
    AtNode(c', h', p);
  }

  lemma CoversLog(l: Node, f: Node, p: Id, m: AppendRequest)
    requires p in l.nextIndex && 1 <= l.nextIndex[p] <= |l.log| + 1 && IsRequestFor(l, p, m)
    requires l.log <= f.log && f.term <= l.term && l.commit <= |l.log|
    ensures Accepts(f, m) && m.prevIndex + |m.entries| == |l.log| && m.leaderCommit == l.commit && m.to == p && m.term == l.term
  {
  }

  /**
   Commitment reaches everyone: any run with i leading can go on, with the exchanges that repair p and one more heartbeat,
   to where p has applied all that i has committed.
   */
  lemma CommitReachesFollower(ids: set<Id>, trace: seq<Cluster>, steps: seq<Step>, i: Id, p: Id)
    returns (trace': seq<Cluster>, more: seq<Step>)
    requires Run(ids, trace, steps) && Leads(trace[|trace| - 1], i, p)
    ensures Run(ids, trace', steps + more) && trace <= trace' && Informed(trace'[|trace'| - 1], i, p)
    ensures var l, l' := trace[|trace| - 1].nodes[i], trace'[|trace'| - 1].nodes[i];
            && l'.term == l.term && l.commit <= l'.commit && l'.log == l.log
            && p in l.nextIndex && |more| < 2 * l.nextIndex[p] + 5
  {
    hide Inv, Next, Run;
    var h0 := LastInv(ids, trace, steps);
    var first;
    trace', first := BackOffRepairs(ids, trace, steps, i, p);
    var c := trace'[|trace'| - 1];
    var h := LastInv(ids, trace', steps + first);
    var c1, c2 := FailedCall(c, h, i, p);
    LongerRun(ids, trace', steps + first, AppendFailed(i, p), c1);
    trace' := trace' + [c1];
    LongerRun(ids, trace', steps + first + [AppendFailed(i, p)], Heartbeat(i), c2);
    trace' := trace' + [c2];
    var h2 := LastInv(ids, trace', steps + first + [AppendFailed(i, p)] + [Heartbeat(i)]);
    var s, c3 := CommitSpreads(c2, h2, i, p);
    LongerRun(ids, trace', steps + first + [AppendFailed(i, p)] + [Heartbeat(i)], s, c3);
    trace' := trace' + [c3];
    more := first + [AppendFailed(i, p)] + [Heartbeat(i)] + [s];
    assert steps + more == steps + first + [AppendFailed(i, p)] + [Heartbeat(i)] + [s];
    hide Inv, HistoryOk, NodeOk, Informed;
    assert trace'[|trace| - 1] == trace[|trace| - 1];
    CommittedForever(ids, trace', steps + more, |trace| - 1, |trace'| - 1, i);
  }

  lemma NoRejection(s: Step, s1: Step)
    requires !s.DeliverAppendReply? && !s1.DeliverAppendReply?
    ensures Rejections([s] + [s1]) == 0
  {
    RejectionsAdd([s], [s1]);
    assert Rejections([s]) == Rejections([]) && Rejections([s1]) == Rejections([]);
  }

  lemma StillRepaired(c: Cluster, c1: Cluster, c': Cluster, i: Id, p: Id)
    requires Leads(c, i, p) && Repaired(c1, c', i, p)
    requires c1.nodes[i].log == c.nodes[i].log && c1.nodes[i].term == c.nodes[i].term
    ensures Repaired(c, c', i, p)
  {
  }

  /** Once a call has failed, the next heartbeat sends p the request its cursor stands for. */
  lemma FailedCall(c: Cluster, h: History, i: Id, p: Id) returns (c1: Cluster, c2: Cluster)
    requires Inv(c, h) && Leads(c, i, p)
    ensures Next(c, AppendFailed(i, p), c1) && Next(c1, Heartbeat(i), c2) && Exchanging(c2, i, p)
    ensures p in c.nodes[i].nextIndex && c2.nodes[i].nextIndex == c.nodes[i].nextIndex
    ensures c2.nodes[i].log == c.nodes[i].log && c2.nodes[i].term == c.nodes[i].term && c2.nodes[p] == c.nodes[p]
  {
    hide Inv, HistoryOk, NodeOk;
    CursorOf(c, h, i, p);
    c1 := After(c, AppendFailed(i, p));
    var h1 := StepKeepsInv(c, h, AppendFailed(i, p), c1);
    EveryStepDefined(c1, h1, Heartbeat(i));
    c2 := After(c1, Heartbeat(i));
    assert RequestFor(c2.nodes[i], p) == RequestFor(c1.nodes[i], p);
  }

  /* ---- No exchange meets more rejections than that ---- */

  /** A rejection of a request of its own term names an entry it lacks. */
  ghost predicate RejectionOk(r: AppendReply) {
    !r.success && r.term <= r.roundTerm ==> r.prevIndex > 0
  }

  ghost predicate RejectionsOk(c: Cluster) {
    forall r :: r in c.appendReplies ==> RejectionOk(r)
  }

  lemma RejectionsStep(c: Cluster, s: Step)
    requires Enabled(c, s) && Defined(c, s) && RejectionsOk(c)
    ensures RejectionsOk(After(c, s))
  {
    hide ApplyCommitted, MergeInto, LearnCommit, Recognise, OnElectionTimeout, ReplicateToAll, OnVoteReply, OnAppendReply,
         Submit, OnAppendFailure, HandleVoteRequest, KeepsCommitted, ReplyInRange, CursorsInRange;
    if s.DeliverAppend? {
      RejectionNamesEntry(c.nodes[s.m.to], s.m);
    }
  }

  lemma RejectionNamesEntry(n: Node, m: AppendRequest)
    requires KeepsCommitted(n, m)
    ensures RejectionOk(HandleAppend(n, m).1)
  {
  }

  lemma {:induction false} RunRejectionsOk(ids: set<Id>, trace: seq<Cluster>, steps: seq<Step>, k: nat)
    requires Run(ids, trace, steps) && k < |trace|
    ensures RejectionsOk(trace[k])
    decreases k
  {
    hide Enabled, Defined, After, RejectionsOk;
    if k == 0 {
      NoRejectionsYet(ids);
    } else {
      RunRejectionsOk(ids, trace, steps, k - 1);
      assert Next(trace[k - 1], steps[k - 1], trace[k - 1 + 1]);
      StepIsDefined(ids, trace, steps, k - 1);
      RejectionsStep(trace[k - 1], steps[k - 1]);
    }
  }

  lemma NoRejectionsYet(ids: set<Id>)
    ensures RejectionsOk(InitialCluster(ids))
  {
  }

  /** The step delivers p's answer to leader i in i's term. */
  predicate Answers(c: Cluster, s: Step, i: Id, p: Id) {
    && s.DeliverAppendReply? && s.r.to == i && s.r.from == p && i in c.nodes && p in c.nodes[i].nextIndex
    && c.nodes[i].status == Leader && s.r.roundTerm == c.nodes[i].term && s.r.term <= c.nodes[i].term
  }

  /** It rejects the request the leader's cursor stands for. */
  predicate RejectsCursor(c: Cluster, s: Step, i: Id, p: Id) {
    Answers(c, s, i, p) && !s.r.success && s.r.prevIndex + 1 == c.nodes[i].nextIndex[p]
  }

  function CursorRejections(trace: seq<Cluster>, steps: seq<Step>, i: Id, p: Id, j: nat, k: nat): nat
    requires j <= k <= |steps| && |trace| == |steps| + 1
    decreases k - j
  {
    if j == k then 0
    else CursorRejections(trace, steps, i, p, j, k - 1) + if RejectsCursor(trace[k - 1], steps[k - 1], i, p) then 1 else 0
  }

  /** Node i leads this term with a cursor for p. */
  predicate LeadsTerm(c: Cluster, i: Id, p: Id, term: nat) {
    i in c.nodes && c.nodes[i].status == Leader && c.nodes[i].term == term && p in c.nodes[i].nextIndex
  }

  lemma AppendCursor(n: Node, m: AppendRequest)
    requires KeepsCommitted(n, m) && n.status == Leader
    ensures var n' := HandleAppend(n, m).0; n'.status == Leader ==> n' == n
  {
    hide Merge, ApplyCommitted;
    if Accepts(n, m) {
      ApplyFrame(LearnCommit(MergeInto(Recognise(n, m), m), m.leaderCommit, m.prevIndex + |m.entries|));
    }
  }

  lemma SubmitCursor(n: Node, c: Command)
    requires CursorsInRange(n) && n.commit <= |n.log| && n.status == Leader
    ensures Submit(n, c).nextIndex == n.nextIndex && Submit(n, c).matchIndex == n.matchIndex
  {
    hide Settle;
    SettleFrame(ReplicateToAll(Enqueue(n, c)));
  }

  /** What the leader has recorded of p. */
  predicate SameRow(n: Node, n': Node, p: Id) {
    && (p in n.nextIndex ==> p in n'.nextIndex && n'.nextIndex[p] == n.nextIndex[p])
    && (p in n.matchIndex ==> p in n'.matchIndex && n'.matchIndex[p] == n.matchIndex[p])
  }

  /** What p's answer in the leader's term makes of it. */
  predicate AnsweredRow(n: Node, n': Node, p: Id, r: AppendReply) {
    && p in n.nextIndex && p in n'.nextIndex && p in n.matchIndex && p in n'.matchIndex
    && if r.success then
         n'.matchIndex[p] == Max(n.matchIndex[p], r.prevIndex + r.sentCount) && n'.nextIndex[p] == n'.matchIndex[p] + 1
       else
         n'.matchIndex[p] == n.matchIndex[p] && n'.nextIndex[p] == if n.nextIndex[p] <= 2 then 1 else n.nextIndex[p] - 1
  }

  lemma ReplyCursor(n: Node, r: AppendReply, p: Id)
    requires ReplyInRange(n, r) && n.status == Leader && r.term <= n.term
    ensures var n' := OnAppendReply(n, r);
            if r.from == p && r.roundTerm == n.term then AnsweredRow(n, n', p, r) else SameRow(n, n', p)
  {
    if n.term == r.roundTerm {
      if r.success {
        SuccessMeans(n, r);
      } else {
        FailureMeans(n, r);
      }
    } else {
      OtherReplyMeans(n, r);
    }
    hide OnAppendReply, ReplyInRange;
  }

  /** While i leads a term, only p's answers move its cursor: a rejection down by one, a success behind what p holds. */
  lemma CursorStep(c: Cluster, s: Step, i: Id, p: Id)
    requires Enabled(c, s) && Defined(c, s) && i in c.nodes && forall q :: q in c.nodes ==> c.nodes[q].id == q
    requires var c' := After(c, s);
             LeadsTerm(c, i, p, c.nodes[i].term) && LeadsTerm(c', i, p, c.nodes[i].term)
    ensures var n, n' := c.nodes[i], After(c, s).nodes[i];
            if Answers(c, s, i, p) then AnsweredRow(n, n', p, s.r) else SameRow(n, n', p)
  {
    hide HandleAppend, OnAppendReply, Submit, KeepsCommitted, ReplyInRange;
    var n := c.nodes[i];
    match s
    case DeliverAppend(m) =>
      AppendKeepsId(c.nodes[m.to], m);
      if m.to == i {
        AppendCursor(n, m);
      }
    case DeliverAppendReply(r) => ReplyStepCursor(c, r, i, p);
    case ClientCommand(q, command) =>
      SubmitKeepsId(c.nodes[q], command);
      if q == i {
        SubmitCursor(n, command);
      }
    case _ => QuietCursor(c, s, i, p);
  }

  lemma ReplyStepCursor(c: Cluster, r: AppendReply, i: Id, p: Id)
    requires Enabled(c, DeliverAppendReply(r)) && Defined(c, DeliverAppendReply(r)) && i in c.nodes
    requires c.nodes[i].id == i && c.nodes[r.to].id == r.to
    requires var c' := After(c, DeliverAppendReply(r));
             LeadsTerm(c, i, p, c.nodes[i].term) && LeadsTerm(c', i, p, c.nodes[i].term)
    ensures var s, n, n' := DeliverAppendReply(r), c.nodes[i], After(c, DeliverAppendReply(r)).nodes[i];
            if Answers(c, s, i, p) then AnsweredRow(n, n', p, r) else SameRow(n, n', p)
  {
    hide OnAppendReply, ReplyInRange;
    var n := c.nodes[i];
    AppendReplyKeepsId(c.nodes[r.to], r);
    if r.to == i && r.term <= n.term {
      ReplyCursor(n, r, p);
    } else if r.to == i {
      LaterReplyDeposes(n, r);
    }
  }

  /** Handlers other than those of entries and commands leave a leader's cursors alone, or end its term. */
  ghost predicate LeavesCursors(n: Node, n': Node) {
    && n'.id == n.id
    && (n.status == Leader && n'.status == Leader && n'.term == n.term ==>
          n'.nextIndex == n.nextIndex && n'.matchIndex == n.matchIndex)
  }

  lemma TimeoutCursors(n: Node)
    ensures LeavesCursors(n, OnElectionTimeout(n))
  {
    hide OnElectionTimeout;
    TimeoutFrame(n);
  }

  lemma HeartbeatCursors(n: Node)
    requires CursorsInRange(n)
    ensures LeavesCursors(n, ReplicateToAll(n))
  {
    hide ReplicateToAll, CursorsInRange;
    ReplicateToAllFrame(n);
  }

  lemma VoteRequestCursors(n: Node, q: VoteRequest)
    ensures LeavesCursors(n, HandleVoteRequest(n, q).0)
  {
    hide Grants;
  }

  lemma VoteReplyCursors(n: Node, v: VoteReply)
    ensures LeavesCursors(n, OnVoteReply(n, v))
  {
    hide BecomeLeader;
    BecomeLeaderFrame(n.(votes := n.votes + 1));
  }

  /** Timeouts, heartbeats, votes and failed calls leave a leader's cursors alone, or end its term. */
  lemma QuietCursor(c: Cluster, s: Step, i: Id, p: Id)
    requires Enabled(c, s) && Defined(c, s) && i in c.nodes && forall q :: q in c.nodes ==> c.nodes[q].id == q
    requires !s.DeliverAppend? && !s.DeliverAppendReply? && !s.ClientCommand?
    requires var c' := After(c, s);
             LeadsTerm(c, i, p, c.nodes[i].term) && LeadsTerm(c', i, p, c.nodes[i].term)
    ensures SameRow(c.nodes[i], After(c, s).nodes[i], p)
  {
    hide HandleAppend, OnAppendReply, Submit, KeepsCommitted, ReplyInRange, OnElectionTimeout, ReplicateToAll,
         HandleVoteRequest, OnVoteReply, CursorsInRange;
    match s
    case ElectionTimeout(q) => TimeoutCursors(c.nodes[q]);
    case Heartbeat(q) => HeartbeatCursors(c.nodes[q]);
    case DeliverVoteRequest(q) => VoteRequestCursors(c.nodes[q.to], q);
    case DeliverVoteReply(v) => VoteReplyCursors(c.nodes[v.to], v);
    case _ =>
  }

  lemma LaterReplyDeposes(n: Node, r: AppendReply)
    requires ReplyInRange(n, r) && r.term > n.term
    ensures OnAppendReply(n, r).status == Follower
  {
  }

  /** No leader that keeps its term has had p's success answered meanwhile. */
  ghost predicate NoSuccessFrom(trace: seq<Cluster>, steps: seq<Step>, i: Id, p: Id, j: nat, k: nat) {
    && k <= |steps| && |trace| == |steps| + 1
    && forall m: nat :: j <= m < k && Answers(trace[m], steps[m], i, p) ==> !steps[m].r.success
  }

  ghost predicate LeadsThroughout(trace: seq<Cluster>, i: Id, p: Id, term: nat, j: nat, k: nat) {
    k < |trace| && forall m: nat :: j <= m <= k ==> LeadsTerm(trace[m], i, p, term)
  }

  /**
   Whatever else is delivered in between and in whatever order, every rejection of the request the cursor stands for brings
   the cursor down: while a leader waits for p's first success it meets at most `nextIndex - 1` of them.
   */
  lemma {:induction false} RejectionsBounded(
    ids: set<Id>, trace: seq<Cluster>, steps: seq<Step>, i: Id, p: Id, term: nat, j: nat, k: nat)
    requires Run(ids, trace, steps) && j <= k < |trace|
    requires LeadsThroughout(trace, i, p, term, j, k) && NoSuccessFrom(trace, steps, i, p, j, k)
    ensures trace[k].nodes[i].nextIndex[p] >= 1
    ensures CursorRejections(trace, steps, i, p, j, k) + trace[k].nodes[i].nextIndex[p] <= trace[j].nodes[i].nextIndex[p]
    decreases k - j
  {
    hide Run, Answers;
    CursorPositive(ids, trace, steps, k, i, p);
    if j < k {
      RejectionsBounded(ids, trace, steps, i, p, term, j, k - 1);
      CursorMoves(ids, trace, steps, k - 1, i, p, term);
    }
  }

  lemma CursorPositive(ids: set<Id>, trace: seq<Cluster>, steps: seq<Step>, k: nat, i: Id, p: Id)
    requires Run(ids, trace, steps) && k < |trace| && i in trace[k].nodes && LeadsTerm(trace[k], i, p, trace[k].nodes[i].term)
    ensures 1 <= trace[k].nodes[i].nextIndex[p] <= |trace[k].nodes[i].log| + 1
  {
    hide Run, Inv, HistoryOk, NodeOk, Chronicle;
    var hs := RunHasChronicle(ids, trace, steps);
    ChronicleAt(ids, trace, hs, k, i);
  }

  lemma ChronicleAt(ids: set<Id>, trace: seq<Cluster>, hs: seq<History>, k: nat, i: Id)
    requires Chronicle(ids, trace, hs) && At(trace, k, i)
    ensures LocalOk(trace[k].nodes[i]) && forall q :: q in trace[k].nodes ==> trace[k].nodes[q].id == q
  {
    hide HistoryOk, NodeOk;
    NodeFacts(ids, trace, hs, k, i);
  }

  lemma CursorMoves(ids: set<Id>, trace: seq<Cluster>, steps: seq<Step>, k: nat, i: Id, p: Id, term: nat)
    requires Run(ids, trace, steps) && k < |steps| && k + 1 < |trace|
    requires LeadsTerm(trace[k], i, p, term) && LeadsTerm(trace[k + 1], i, p, term)
    requires Answers(trace[k], steps[k], i, p) ==> !steps[k].r.success
    ensures trace[k + 1].nodes[i].nextIndex[p] + (if RejectsCursor(trace[k], steps[k], i, p) then 1 else 0)
         <= trace[k].nodes[i].nextIndex[p]
  {
    hide Run, Enabled, Defined, After, Inv, Chronicle, LocalOk;
    var c, s := trace[k], steps[k];
    StepIsDefined(ids, trace, steps, k);
    var hs := RunHasChronicle(ids, trace, steps);
    ChronicleAt(ids, trace, hs, k, i);
    CursorPositive(ids, trace, steps, k, i, p);
    CursorStep(c, s, i, p);
    if RejectsCursor(c, s, i, p) {
      RunRejectionsOk(ids, trace, steps, k);
      InOutbox(c, s);
      assert RejectionOk(s.r);
    }
  }

  lemma InOutbox(c: Cluster, s: Step)
    requires Enabled(c, s) && s.DeliverAppendReply?
    ensures s.r in c.appendReplies
  {
  }

  /* ---- The cursor stays ahead of what is known ---- */

  /** p's success is delivered to leader i in its term. */
  predicate Succeeds(c: Cluster, s: Step, i: Id, p: Id) {
    Answers(c, s, i, p) && s.r.success
  }

  ghost predicate SilentFrom(trace: seq<Cluster>, steps: seq<Step>, i: Id, p: Id, j: nat, k: nat) {
    k <= |steps| && |trace| == |steps| + 1 && forall m: nat :: j <= m < k ==> !Answers(trace[m], steps[m], i, p)
  }

  ghost predicate Ahead(c: Cluster, i: Id, p: Id) {
    && i in c.nodes && p in c.nodes[i].matchIndex && p in c.nodes[i].nextIndex
    && c.nodes[i].matchIndex[p] < c.nodes[i].nextIndex[p]
  }

  lemma RowMoves(ids: set<Id>, trace: seq<Cluster>, steps: seq<Step>, k: nat, i: Id, p: Id, term: nat)
    requires Run(ids, trace, steps) && k < |steps| && k + 1 < |trace|
    requires LeadsTerm(trace[k], i, p, term) && LeadsTerm(trace[k + 1], i, p, term)
    ensures var n, n' := trace[k].nodes[i], trace[k + 1].nodes[i];
            && p in n.matchIndex && p in n'.matchIndex
            && if Answers(trace[k], steps[k], i, p) then AnsweredRow(n, n', p, steps[k].r) else SameRow(n, n', p)
  {
    hide Run, Enabled, Defined, After, Inv, Chronicle, LocalOk, AnsweredRow, SameRow;
    StepIsDefined(ids, trace, steps, k);
    var hs := RunHasChronicle(ids, trace, steps);
    ChronicleAt(ids, trace, hs, k, i);
    ChronicleAt(ids, trace, hs, k + 1, i);
    RowsThere(trace[k].nodes[i], p);
    RowsThere(trace[k + 1].nodes[i], p);
    CursorStep(trace[k], steps[k], i, p);
  }

  lemma RowsThere(n: Node, p: Id)
    requires LocalOk(n) && n.status == Leader && p in n.nextIndex
    ensures p in n.matchIndex && n.nextIndex[p] >= 1
  {
  }

  /** Before p's first success nothing is known of it, so its cursor is ahead whatever is rejected. */
  lemma {:induction false} AheadBeforeSuccess(
    ids: set<Id>, trace: seq<Cluster>, steps: seq<Step>, i: Id, p: Id, term: nat, j: nat, k: nat)
    requires Run(ids, trace, steps) && j <= k < |trace| && LeadsThroughout(trace, i, p, term, j, k)
    requires NoSuccessFrom(trace, steps, i, p, j, k)
    requires p in trace[j].nodes[i].matchIndex && trace[j].nodes[i].matchIndex[p] == 0
    ensures Ahead(trace[k], i, p) && trace[k].nodes[i].matchIndex[p] == 0
    decreases k - j
  {
    hide Run, Answers;
    CursorPositive(ids, trace, steps, k, i, p);
    if j < k {
      AheadBeforeSuccess(ids, trace, steps, i, p, term, j, k - 1);
      RowMoves(ids, trace, steps, k - 1, i, p, term);
    }
  }

  /**
   From a success of p at moment j, and until its next one, the cursor is ahead of what p is known to hold exactly when no
   rejection has come in since (or nothing is known to be held): one that was under way before the success still moves it.
   */
  lemma {:induction false} AheadExactly(
    ids: set<Id>, trace: seq<Cluster>, steps: seq<Step>, i: Id, p: Id, term: nat, j: nat, k: nat)
    requires Run(ids, trace, steps) && j < k < |trace| && LeadsThroughout(trace, i, p, term, j, k)
    requires Succeeds(trace[j], steps[j], i, p) && NoSuccessFrom(trace, steps, i, p, j + 1, k)
    ensures p in trace[k].nodes[i].matchIndex && trace[k].nodes[i].nextIndex[p] <= trace[k].nodes[i].matchIndex[p] + 1
    ensures p in trace[j + 1].nodes[i].matchIndex && trace[k].nodes[i].matchIndex[p] == trace[j + 1].nodes[i].matchIndex[p]
    ensures Ahead(trace[k], i, p) <==> trace[k].nodes[i].matchIndex[p] == 0 || SilentFrom(trace, steps, i, p, j + 1, k)
    decreases k - j
  {
    hide Run, Answers;
    CursorPositive(ids, trace, steps, k, i, p);
    RowMoves(ids, trace, steps, k - 1, i, p, term);
    if j + 1 < k {
      AheadExactly(ids, trace, steps, i, p, term, j, k - 1);
      SilentOneMore(trace, steps, i, p, j + 1, k - 1);
    }
  }

  lemma SilentOneMore(trace: seq<Cluster>, steps: seq<Step>, i: Id, p: Id, j: nat, k: nat)
    requires j <= k < |steps| && |trace| == |steps| + 1
    ensures SilentFrom(trace, steps, i, p, j, k + 1)
       <==> SilentFrom(trace, steps, i, p, j, k) && !Answers(trace[k], steps[k], i, p)
  {
    hide Answers;
  }

  /* ---- After the first success ---- */

  /**
   Once p has answered a request of this term with success, it accepts every request of that term's leader that starts no
   later than what it then held, for as long as it stays in the term; so the leader meets no further rejection it needs.
   */
  lemma AcknowledgedAccepts(
    ids: set<Id>, trace: seq<Cluster>, steps: seq<Step>, j: nat, k: nat, r: AppendReply, i: Id, m: AppendRequest)
    requires Run(ids, trace, steps) && j <= k < |trace| && r in trace[j].appendReplies && r.success
    requires At(trace, k, r.from) && trace[k].nodes[r.from].term == r.roundTerm
    requires At(trace, k, i) && m in trace[k].nodes[i].appendRequests && m.term == r.roundTerm
    requires m.prevIndex <= r.prevIndex + r.sentCount
    ensures Accepts(trace[k].nodes[r.from], m)
  {
    hide HistoryOk, NodeOk, Run, Next, Inv, CommitJustified;
    var hs := RunHasChronicle(ids, trace, steps);
    ReplyFacts(ids, trace, hs, j, r);
    NodeFacts(ids, trace, hs, k, r.from);
    NodeFacts(ids, trace, hs, k, i);
    assert Extends(hs[j], hs[k]);
    HolderAccepts(hs[k], trace[k].nodes[r.from], Ack(r.from, r.roundTerm, r.prevIndex + r.sentCount), m);
  }

  lemma ReplyFacts(ids: set<Id>, trace: seq<Cluster>, hs: seq<History>, j: nat, r: AppendReply)
    requires InvThroughout(ids, trace, hs) && j < |trace| && r in trace[j].appendReplies
    ensures AppendReplyOk(hs[j], r)
  {
  }

  lemma HolderAccepts(h: History, n: Node, a: Ack, m: AppendRequest)
    requires AcksOk(h, n) && a in h.acks && a.node == n.id && a.term == n.term == m.term
    requires AppendRequestOk(h, m) && m.prevIndex <= a.upto
    ensures Accepts(n, m)
  {
    hide CommitJustified;
    assert Kept(h, n.log, a.term, a.upto, n.term);
    assert KeptAt(h, n.log, a.term, a.upto, n.term);
    var l := h.elections[m.term].log;
    assert Retains(n.log, l, a.upto);
    assert m.prevIndex > 0 ==> n.log[m.prevIndex - 1] == n.log[..a.upto][m.prevIndex - 1] == l[..a.upto][m.prevIndex - 1];
  }

  /** Delivering a request again, or an older shorter one, never shortens or changes a log that has what it carries. */
  lemma RedeliveryKeepsLog(ids: set<Id>, trace: seq<Cluster>, steps: seq<Step>, k: nat, m: AppendRequest)
    requires Run(ids, trace, steps) && k < |trace| && Enabled(trace[k], DeliverAppend(m))
    requires var f := trace[k].nodes[m.to];
             Accepts(f, m) && m.prevIndex + |m.entries| <= |f.log| &&
             f.log[m.prevIndex..m.prevIndex + |m.entries|] == m.entries
    ensures KeepsCommitted(trace[k].nodes[m.to], m)
    ensures HandleAppend(trace[k].nodes[m.to], m).0.log == trace[k].nodes[m.to].log
  {
    hide HistoryOk, NodeOk, Run, Next, Inv;
    NoExceptions(ids, trace, steps, k, DeliverAppend(m));
    var f := trace[k].nodes[m.to];
    MergeSkips(f.log, m.prevIndex, m.entries);
    AcceptFrame(f, m);
  }

  lemma {:induction false} MergeSkips(log: Log, index: nat, entries: Log)
    requires index + |entries| <= |log| && log[index..index + |entries|] == entries
    ensures Merge(log, index, entries) == log
    decreases |entries|
  {
    if entries != [] {
      assert log[index..index + |entries|][0] == entries[0];
      assert log[index + 1..index + 1 + |entries[1..]|] == log[index..index + |entries|][1..];
      MergeSkips(log, index + 1, entries[1..]);
    }
  }
}
