/** Answers follow real time: what is submitted after an answer is answered at a later index, if at all. */
module RaftOrder {
  import opened KeyValue
  import opened RaftProtocol
  import opened RaftHistory
  import opened RaftGrowth
  import opened RaftInvariant
  import opened RaftCluster
  import opened RaftProgress
  import opened RaftSafety

  /* ---- Where a future's entry is ---- */

  /** The client waits at entry x of a leader's own term. */
  predicate WaitsAt(n: Node, f: Future, x: nat, term: nat) {
    && n.status == Leader && n.term == term && x in n.pending && n.pending[x] == f
    && n.applied < x <= |n.log| && n.log[x - 1].term == term
  }

  predicate Refused(n: Node, f: Future) {
    f in n.answered && n.answered[f] == NotLeader
  }

  /** The client has the result of entry x, which is of this term. */
  predicate AnsweredAt(n: Node, f: Future, x: nat, term: nat) {
    && f in n.answered && n.answered[f] != NotLeader && AnswerIndex(n.answered[f]) == x
    && 1 <= x <= n.applied && x <= |n.log| && n.log[x - 1].term == term
  }

  predicate PlacedAt(n: Node, f: Future, x: nat, term: nat) {
    WaitsAt(n, f, x, term) || Refused(n, f) || AnsweredAt(n, f, x, term)
  }

  /** Applying answers the client waiting at an entry with that entry's index. */
  lemma {:induction false} ApplyPlaces(n: Node, f: Future, x: nat, term: nat)
    requires n.commit <= |n.log| && PendingFresh(n) && WaitsAt(n, f, x, term)
    ensures PlacedAt(ApplyCommitted(n), f, x, term)
    decreases n.commit - n.applied
  {
    hide Applied;
    if n.applied < n.commit {
      var n1 := ApplyOne(n);
      if n.applied + 1 == x {
        ApplyProgress(n1);
        ApplyFrame(n1);
      } else {
        ApplyPlaces(n1, f, x, term);
      }
    }
  }

  lemma SettlePlaces(n: Node, f: Future, x: nat, term: nat)
    requires n.commit <= |n.log| && PendingFresh(n) && WaitsAt(n, f, x, term)
    ensures PlacedAt(Settle(n), f, x, term)
  {
    hide PlacedAt;
    ScanInRange(n, |n.log|);
    ApplyPlaces(AdvanceCommit(n), f, x, term);
  }

  /** Stepping down refuses every waiting client. */
  lemma DeposedRefuses(n: Node, seenTerm: nat, f: Future, x: nat, term: nat)
    requires WaitsAt(n, f, x, term)
    ensures Refused(BecomeFollower(n, seenTerm), f)
  {
    assert f in n.pending.Values;
  }

  lemma VoteRequestPlaces(n: Node, q: VoteRequest, f: Future, x: nat, term: nat)
    requires WaitsAt(n, f, x, term)
    ensures PlacedAt(HandleVoteRequest(n, q).0, f, x, term)
  {
    hide BecomeFollower, Grants;
    DeposedRefuses(n, q.term, f, x, term);
    SteppedDown(n, q.term);
  }

  lemma SteppedDown(n: Node, seenTerm: nat)
    ensures BecomeFollower(n, seenTerm).status == Follower
  {
  }

  lemma VoteReplyPlaces(n: Node, v: VoteReply, f: Future, x: nat, term: nat)
    requires WaitsAt(n, f, x, term)
    ensures PlacedAt(OnVoteReply(n, v), f, x, term)
  {
    hide BecomeFollower;
    DeposedRefuses(n, v.term, f, x, term);
  }

  lemma AppendPlaces(n: Node, m: AppendRequest, f: Future, x: nat, term: nat)
    requires WaitsAt(n, f, x, term) && KeepsCommitted(n, m) && PendingFresh(n)
    ensures PlacedAt(HandleAppend(n, m).0, f, x, term)
  {
    hide HandleAppend, BecomeFollower, KeepsCommitted, PendingFresh, ApplyCommitted, Merge;
    AppendCases(n, m);
    if m.term >= n.term {
      DeposedRefuses(n, m.term, f, x, term);
      RecogniseProgress(n, m);
      if Accepts(n, m) {
        var n3 := LearnCommit(MergeInto(Recognise(n, m), m), m.leaderCommit, m.prevIndex + |m.entries|);
        SameClients(Recognise(n, m), n3);
        ApplyProgress(n3);
      }
    }
  }

  lemma SameClients(n: Node, n': Node)
    requires PendingFresh(n) && n'.pending == n.pending && n'.answered == n.answered
    ensures PendingFresh(n')
  {
  }

  lemma ReplyPlaces(n: Node, r: AppendReply, f: Future, x: nat, term: nat)
    requires WaitsAt(n, f, x, term) && ReplyInRange(n, r) && PendingFresh(n)
    ensures PlacedAt(OnAppendReply(n, r), f, x, term)
  {
    hide BecomeFollower, PendingFresh, Settle, CursorsInRange, RequestFor;
    var n0 := n.(inFlight := n.inFlight - {r.from});
    if r.term > n.term {
      DeposedRefuses(n0, r.term, f, x, term);
    } else if n.term == r.roundTerm && r.success {
      var n1 := Acknowledge(n0, r.from, r.prevIndex + r.sentCount);
      SameClients(n, n1);
      SettlePlaces(n1, f, x, term);
      SettleFrame(n1);
    }
  }

  lemma SubmitPlaces(n: Node, c: Command, f: Future, x: nat, term: nat)
    requires n.status == Leader && PendingFresh(n) && CursorsInRange(n) && n.commit <= |n.log|
    requires forall g :: g in n.answered || g in n.pending.Values ==> g < |n.submitted|
    requires WaitsAt(Enqueue(n, c), f, x, term)
    ensures PlacedAt(Submit(n, c), f, x, term)
  {
    hide PlacedAt, Settle, CursorsInRange, ReplicateToAll;
    var n1 := Enqueue(n, c);
    EnqueuedFresh(n, c);
    assert CursorsInRange(n1) by { EnqueuedCursors(n, c); }
    ReplicateToAllFrame(n1);
    SameClients(n1, ReplicateToAll(n1));
    SettlePlaces(ReplicateToAll(n1), f, x, term);
  }

  lemma EnqueuedFresh(n: Node, c: Command)
    requires PendingFresh(n) && forall g :: g in n.answered || g in n.pending.Values ==> g < |n.submitted|
    ensures PendingFresh(Enqueue(n, c))
  {
    assert forall k :: k in n.pending ==> n.pending[k] in n.pending.Values;
  }

  lemma EnqueuedCursors(n: Node, c: Command)
    requires CursorsInRange(n)
    ensures CursorsInRange(Enqueue(n, c))
  {
  }

  /** A handler that changes neither log, clients nor office leaves the client waiting where it was. */
  lemma SamePlace(n: Node, n': Node, f: Future, x: nat, term: nat)
    requires WaitsAt(n, f, x, term)
    requires n'.status == n.status && n'.term == n.term && n'.log == n.log && n'.pending == n.pending && n'.applied == n.applied
    ensures PlacedAt(n', f, x, term)
  {
  }

  lemma StepPlaces(c: Cluster, h: History, s: Step, c': Cluster, i: Id, f: Future, x: nat, term: nat)
    requires Inv(c, h) && Next(c, s, c') && i in c.nodes && WaitsAt(c.nodes[i], f, x, term)
    ensures i in c'.nodes && PlacedAt(c'.nodes[i], f, x, term)
  {
    hide Inv, NodeOk, HistoryOk, WaitsAt, PlacedAt, PendingFresh, LogOk, RepliesOk, OnElectionTimeout, OnVoteReply,
         ReplicateToAll, HandleVoteRequest, HandleAppend, OnAppendReply, Submit, KeepsCommitted, ReplyInRange,
         CursorsInRange;
    EveryStepDefined(c, h, s);
    AtNode(c, h, i);
    var n := c.nodes[i];
    ClientFacts(c.delivered, h, n);
    Office(n, f, x, term);
    SamePlace(n, n, f, x, term);
    match s
    case ElectionTimeout(j) => AtNode(c, h, j); TimeoutFrame(c.nodes[j]);
    case Heartbeat(j) =>
      AtNode(c, h, j);
      ReplicateToAllFrame(c.nodes[j]);
      if i == j {
        SamePlace(n, ReplicateToAll(n), f, x, term);
      }
    case DeliverVoteRequest(q) =>
      AtNode(c, h, q.to);
      VoteRequestKeepsId(c.nodes[q.to], q);
      VoteRequestPlaces(n, q, f, x, term);
    case DeliverVoteReply(v) =>
      AtNode(c, h, v.to);
      VoteReplyKeepsId(c.nodes[v.to], v);
      VoteReplyPlaces(n, v, f, x, term);
    case DeliverAppend(m) =>
      AtNode(c, h, m.to);
      AppendKeepsId(c.nodes[m.to], m);
      if i == m.to {
        AppendPlaces(n, m, f, x, term);
      }
    case DeliverAppendReply(r) =>
      AtNode(c, h, r.to);
      AppendReplyKeepsId(c.nodes[r.to], r);
      if i == r.to {
        ReplyPlaces(n, r, f, x, term);
      }
    case AppendFailed(j, p) =>
      AtNode(c, h, j);
      if i == j {
        SamePlace(n, OnAppendFailure(n, p), f, x, term);
      }
    case ClientCommand(j, command) =>
      AtNode(c, h, j);
      SubmitKeepsId(c.nodes[j], command);
      if i == j {
        StillWaits(n, command, f, x, term);
        SubmitPlaces(n, command, f, x, term);
      }
  }

  lemma Office(n: Node, f: Future, x: nat, term: nat)
    requires WaitsAt(n, f, x, term)
    ensures n.status == Leader
  {
  }

  lemma StillWaits(n: Node, c: Command, f: Future, x: nat, term: nat)
    requires WaitsAt(n, f, x, term)
    ensures WaitsAt(Enqueue(n, c), f, x, term)
  {
  }

  lemma VoteRequestKeepsId(n: Node, q: VoteRequest)
    ensures HandleVoteRequest(n, q).0.id == n.id && HandleVoteRequest(n, q).0.submitted == n.submitted
  {
    hide Grants;
  }

  lemma VoteReplyKeepsId(n: Node, v: VoteReply)
    ensures OnVoteReply(n, v).id == n.id && OnVoteReply(n, v).submitted == n.submitted
  {
    hide BecomeLeader;
    BecomeLeaderFrame(n.(votes := n.votes + 1));
  }

  /** A future stays refused, or at its entry: what is answered is of the index and the term it was submitted at. */
  lemma {:induction false} StaysPlaced(
    ids: set<Id>, trace: seq<Cluster>, steps: seq<Step>, j: nat, k: nat, i: Id, f: Future, x: nat, term: nat)
    requires Run(ids, trace, steps) && At(trace, j, i) && j <= k < |trace| && PlacedAt(trace[j].nodes[i], f, x, term)
    ensures At(trace, k, i) && PlacedAt(trace[k].nodes[i], f, x, term)
    decreases k - j
  {
    hide Inv, Next, PlacedAt;
    if j < k {
      StaysPlaced(ids, trace, steps, j, k - 1, i, f, x, term);
      NextPlaced(ids, trace, steps, k - 1, i, f, x, term);
    }
  }

  lemma NextPlaced(ids: set<Id>, trace: seq<Cluster>, steps: seq<Step>, k: nat, i: Id, f: Future, x: nat, term: nat)
    requires Run(ids, trace, steps) && k < |steps| && At(trace, k, i) && PlacedAt(trace[k].nodes[i], f, x, term)
    ensures At(trace, k + 1, i) && PlacedAt(trace[k + 1].nodes[i], f, x, term)
  {
    hide Inv, Next, WaitsAt, Enabled, Defined, After;
    CommittedForever(ids, trace, steps, k, k + 1, i);
    var n, n' := trace[k].nodes[i], trace[k + 1].nodes[i];
    if WaitsAt(n, f, x, term) {
      var hs := RunHasChronicle(ids, trace, steps);
      assert Next(trace[k], steps[k], trace[k + 1]);
      StepPlaces(trace[k], hs[k], steps[k], trace[k + 1], i, f, x, term);
    } else if AnsweredAt(n, f, x, term) {
      assert n'.log[x - 1] == n'.log[..n.commit][x - 1] == n.log[..n.commit][x - 1];
    }
  }

  /* ---- Submission ---- */

  lemma SubmittedStep(c: Cluster, h: History, s: Step, c': Cluster, i: Id)
    requires Inv(c, h) && Next(c, s, c') && i in c.nodes
    ensures i in c'.nodes
    ensures c'.nodes[i].submitted == c.nodes[i].submitted + if s.ClientCommand? && s.i == i then [s.c] else []
  {
    hide Inv, NodeOk, HistoryOk, LogOk, RepliesOk, OnElectionTimeout, OnVoteReply, ReplicateToAll, HandleVoteRequest,
         HandleAppend, OnAppendReply, Submit, KeepsCommitted, ReplyInRange, CursorsInRange;
    EveryStepDefined(c, h, s);
    AtNode(c, h, i);
    match s
    case ElectionTimeout(j) => AtNode(c, h, j); TimeoutFrame(c.nodes[j]);
    case Heartbeat(j) => AtNode(c, h, j); ReplicateToAllFrame(c.nodes[j]);
    case DeliverVoteRequest(q) => AtNode(c, h, q.to); VoteRequestKeepsId(c.nodes[q.to], q);
    case DeliverVoteReply(v) => AtNode(c, h, v.to); VoteReplyKeepsId(c.nodes[v.to], v);
    case DeliverAppend(m) => AtNode(c, h, m.to); AppendKeepsSubmitted(c.nodes[m.to], m);
    case DeliverAppendReply(r) => AtNode(c, h, r.to); AppendReplyKeepsSubmitted(c.nodes[r.to], r);
    case AppendFailed(j, p) => AtNode(c, h, j);
    case ClientCommand(j, command) => AtNode(c, h, j); SubmitKeeps(c.nodes[j], command);
  }

  lemma AppendKeepsSubmitted(n: Node, m: AppendRequest)
    requires KeepsCommitted(n, m)
    ensures HandleAppend(n, m).0.submitted == n.submitted && HandleAppend(n, m).0.id == n.id
  {
    hide HandleAppend, KeepsCommitted, ApplyCommitted, Merge;
    AppendCases(n, m);
    if Accepts(n, m) {
      ApplyFrame(LearnCommit(MergeInto(Recognise(n, m), m), m.leaderCommit, m.prevIndex + |m.entries|));
    }
  }

  lemma AppendReplyKeepsSubmitted(n: Node, r: AppendReply)
    requires ReplyInRange(n, r)
    ensures OnAppendReply(n, r).submitted == n.submitted && OnAppendReply(n, r).id == n.id
  {
    hide Settle;
    if r.term <= n.term && n.status == Leader && n.term == r.roundTerm && r.success {
      SettleFrame(Acknowledge(n.(inFlight := n.inFlight - {r.from}), r.from, r.prevIndex + r.sentCount));
    }
  }

  lemma SubmitKeeps(n: Node, c: Command)
    requires CursorsInRange(n) && n.commit <= |n.log|
    ensures Submit(n, c).submitted == n.submitted + [c] && Submit(n, c).id == n.id
  {
    hide Settle, ReplicateToAll;
    if n.status == Leader {
      ReplicateToAllFrame(Enqueue(n, c));
      SettleFrame(ReplicateToAll(Enqueue(n, c)));
    }
  }

  /** The moment a future is handed out. */
  lemma {:induction false} SubmittedWhen(ids: set<Id>, trace: seq<Cluster>, steps: seq<Step>, j: nat, k: nat, i: Id, f: Future)
    returns (m: nat)
    requires Run(ids, trace, steps) && At(trace, j, i) && j <= k && At(trace, k, i)
    requires |trace[j].nodes[i].submitted| <= f < |trace[k].nodes[i].submitted|
    ensures j <= m < k && At(trace, m, i) && At(trace, m + 1, i) && f == |trace[m].nodes[i].submitted|
    ensures steps[m].ClientCommand? && steps[m].i == i
    decreases k - j
  {
    hide Inv, Next;
    var hs := RunHasChronicle(ids, trace, steps);
    LongProgress(ids, trace, steps, hs, j, k - 1, i);
    assert Next(trace[k - 1], steps[k - 1], trace[k - 1 + 1]);
    SubmittedStep(trace[k - 1], hs[k - 1], steps[k - 1], trace[k], i);
    if f < |trace[k - 1].nodes[i].submitted| {
      m := SubmittedWhen(ids, trace, steps, j, k - 1, i, f);
    } else {
      m := k - 1;
    }
  }

  /** A command handed to a leader is put right behind its log; handed to anyone else it is refused and enters no log. */
  lemma SubmissionPlaces(ids: set<Id>, trace: seq<Cluster>, steps: seq<Step>, k: nat, i: Id, c: Command)
    requires Run(ids, trace, steps) && k < |steps| && steps[k] == ClientCommand(i, c) && At(trace, k, i)
    ensures At(trace, k + 1, i)
    ensures var n, n' := trace[k].nodes[i], trace[k + 1].nodes[i];
            if n.status == Leader then PlacedAt(n', |n.submitted|, |n.log| + 1, n.term)
            else n'.log == n.log && Refused(n', |n.submitted|)
  {
    hide Inv, Next, NodeOk, HistoryOk, PlacedAt, PendingFresh, CursorsInRange, Chronicle, LocalOk, Submit;
    StepIsDefined(ids, trace, steps, k);
    var hs := RunHasChronicle(ids, trace, steps);
    ChronicleFacts(ids, trace, hs, k, i);
    SubmitKeeps(trace[k].nodes[i], c);
    SubmittedPlace(trace[k].nodes[i], c);
  }

  lemma SubmittedPlace(n: Node, c: Command)
    requires PendingFresh(n) && LocalOk(n)
    requires forall g :: g in n.answered || g in n.pending.Values ==> g < |n.submitted|
    ensures CursorsInRange(n) && n.commit <= |n.log|
    ensures if n.status == Leader then PlacedAt(Submit(n, c), |n.submitted|, |n.log| + 1, n.term)
            else Submit(n, c).log == n.log && Refused(Submit(n, c), |n.submitted|)
  {
    hide PlacedAt, PendingFresh, CursorsInRange;
    if n.status == Leader {
      SubmitPlaces(n, c, |n.submitted|, |n.log| + 1, n.term);
    }
  }

  lemma ChronicleFacts(ids: set<Id>, trace: seq<Cluster>, hs: seq<History>, k: nat, i: Id)
    requires Chronicle(ids, trace, hs) && At(trace, k, i)
    ensures trace[k].nodes[i].id == i && PendingFresh(trace[k].nodes[i]) && LocalOk(trace[k].nodes[i])
    ensures var n := trace[k].nodes[i]; forall f :: f in n.answered || f in n.pending.Values ==> f < |n.submitted|
  {
    hide HistoryOk, NodeOk, PendingFresh, LocalOk;
    NodeFacts(ids, trace, hs, k, i);
    ClientFacts(trace[k].delivered, hs[k], trace[k].nodes[i]);
  }

  /* ---- Refusals ---- */

  /** A future refused when it was submitted left the log alone, and stays refused: it never waits for an entry. */
  lemma RefusedAtSubmission(ids: set<Id>, trace: seq<Cluster>, steps: seq<Step>, k: nat, l: nat, i: Id, c: Command)
    requires Run(ids, trace, steps) && k < l < |trace| && steps[k] == ClientCommand(i, c) && At(trace, k, i)
    requires trace[k].nodes[i].status != Leader
    ensures At(trace, k + 1, i) && trace[k + 1].nodes[i].log == trace[k].nodes[i].log
    ensures At(trace, l, i) && Refused(trace[l].nodes[i], |trace[k].nodes[i].submitted|)
    ensures |trace[k].nodes[i].submitted| !in trace[l].nodes[i].pending.Values
  {
    hide Inv, Next, NodeOk, HistoryOk, Chronicle, PendingFresh, LocalOk;
    SubmissionPlaces(ids, trace, steps, k, i, c);
    StaysRefused(ids, trace, steps, k + 1, l, i, |trace[k].nodes[i].submitted|);
  }

  lemma StaysRefused(ids: set<Id>, trace: seq<Cluster>, steps: seq<Step>, j: nat, k: nat, i: Id, f: Future)
    requires Run(ids, trace, steps) && At(trace, j, i) && j <= k < |trace| && Refused(trace[j].nodes[i], f)
    ensures At(trace, k, i) && Refused(trace[k].nodes[i], f) && f !in trace[k].nodes[i].pending.Values
  {
    hide Run, Inv, NodeOk, HistoryOk, LocalOk;
    var hs := RunHasChronicle(ids, trace, steps);
    LongProgress(ids, trace, steps, hs, j, k, i);
    ChronicleFacts(ids, trace, hs, k, i);
  }

  /* ---- Real-time order ---- */

  /** Answers respect real time: a command submitted, anywhere, after another was answered gets a later index. */
  lemma AnswersInOrder(
    ids: set<Id>, trace: seq<Cluster>, steps: seq<Step>, j: nat, k: nat, a: Id, b: Id, f: Future, g: Future)
    requires Run(ids, trace, steps) && At(trace, j, a) && At(trace, j, b) && j <= k && At(trace, k, b)
    requires f in trace[j].nodes[a].answered && trace[j].nodes[a].answered[f] != NotLeader
    requires g in trace[k].nodes[b].answered && trace[k].nodes[b].answered[g] != NotLeader
    requires |trace[j].nodes[b].submitted| <= g
    ensures AnswerIndex(trace[j].nodes[a].answered[f]) < AnswerIndex(trace[k].nodes[b].answered[g])
  {
    hide Inv, NodeOk, HistoryOk, PlacedAt, PendingFresh, LocalOk, Next;
    AnswersTruthful(ids, trace, steps, j, a, f);
    AnswersTruthful(ids, trace, steps, k, b, g);
    var m := SubmittedWhen(ids, trace, steps, j, k, b, g);
    SubmissionPlaces(ids, trace, steps, m, b, steps[m].c);
    var l := trace[m].nodes[b];
    if l.status == Leader {
      StaysPlaced(ids, trace, steps, m + 1, k, b, g, |l.log| + 1, l.term);
      PlacedThere(ids, trace, steps, k, b, g, |l.log| + 1, l.term);
      NotYetThere(ids, trace, steps, j, m, k, a, b, AnswerIndex(trace[j].nodes[a].answered[f]));
    } else {
      StaysRefused(ids, trace, steps, m + 1, k, b, g);
    }
  }

  lemma PlacedThere(ids: set<Id>, trace: seq<Cluster>, steps: seq<Step>, k: nat, i: Id, f: Future, x: nat, term: nat)
    requires Run(ids, trace, steps) && At(trace, k, i) && PlacedAt(trace[k].nodes[i], f, x, term)
    requires f in trace[k].nodes[i].answered && trace[k].nodes[i].answered[f] != NotLeader
    ensures AnsweredAt(trace[k].nodes[i], f, x, term)
  {
    hide Run, Inv, NodeOk, HistoryOk, LocalOk;
    var hs := RunHasChronicle(ids, trace, steps);
    ChronicleFacts(ids, trace, hs, k, i);
  }

  /** What a leader has yet to append no one has committed before. */
  lemma NotYetThere(ids: set<Id>, trace: seq<Cluster>, steps: seq<Step>, j: nat, m: nat, k: nat, a: Id, b: Id, i: nat)
    requires Run(ids, trace, steps) && j <= m <= k && At(trace, j, a) && At(trace, m, b) && At(trace, k, b)
    requires trace[m].nodes[b].status == Leader && i <= trace[j].nodes[a].commit
    requires var x := |trace[m].nodes[b].log| + 1;
             && x <= trace[k].nodes[b].commit <= |trace[k].nodes[b].log|
             && trace[k].nodes[b].log[x - 1].term == trace[m].nodes[b].term
    ensures i < |trace[m].nodes[b].log| + 1
  {
    hide Run, Inv, NodeOk, HistoryOk, Next;
    var x, t := |trace[m].nodes[b].log| + 1, trace[m].nodes[b].term;
    if x <= i {
      var hs := RunHasChronicle(ids, trace, steps);
      CommittedAgree(ids, trace, steps, j, k, a, b, x);
      assert trace[j].nodes[a].log[x - 1] == trace[j].nodes[a].log[..x][x - 1] == trace[k].nodes[b].log[..x][x - 1];
      NodeFacts(ids, trace, hs, j, a);
      NodeFacts(ids, trace, hs, m, b);
      assert GroundedAt(hs[j], trace[j].nodes[a].log, x - 1);
      assert Extends(hs[j], hs[m]);
      LeaderLogGrows(hs[j], hs[m], t);
    }
  }
}
