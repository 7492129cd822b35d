/**
 The calls a leader makes to one peer. What a success acknowledges reaches as far as any call of the term starts, so a call the
 peer handles after that is never rejected: a rejection that comes in after a success was under way before it.
 */
module RaftCalls {
  import opened Wrappers
  import opened KeyValue
  import opened RaftLog
  import opened RaftProtocol
  import opened RaftHistory
  import opened RaftInvariant
  import opened RaftMeaning
  import opened RaftCluster
  import opened RaftSafety
  import opened RaftRepair

  /** A request of the node's current term to p, on its way or delivered. */
  predicate Call(n: Node, p: Id, q: AppendRequest) {
    q in n.appendRequests && q.to == p && q.term == n.term
  }

  function EndOf(q: AppendRequest): nat {
    q.prevIndex + |q.entries|
  }

  /** Nothing is known of p: every call reaches to where any of them, and the next, starts. */
  ghost predicate Probing(n: Node, p: Id) {
    && p in n.matchIndex && p in n.nextIndex && n.matchIndex[p] == 0
    && (forall q :: Call(n, p, q) ==> n.nextIndex[p] <= EndOf(q) + 1 && q.prevIndex <= |n.log|)
    && (forall q, q' :: Call(n, p, q) && Call(n, p, q') ==> q.prevIndex <= EndOf(q'))
  }

  /** No call starts, and the next does not, behind what p is known to hold. */
  ghost predicate Streaming(n: Node, p: Id) {
    && p in n.matchIndex && p in n.nextIndex && n.nextIndex[p] <= n.matchIndex[p] + 1
    && forall q :: Call(n, p, q) ==> q.prevIndex <= n.matchIndex[p]
  }

  ghost predicate RowOk(n: Node, p: Id) {
    Probing(n, p) || Streaming(n, p)
  }

  ghost predicate RowsOk(n: Node) {
    n.status == Leader ==> forall p :: p in n.nextIndex ==> RowOk(n, p)
  }

  /** The leader goes on: its log does not shrink, and any new call to p starts at p's cursor and takes all from there on. */
  ghost predicate GoesOn(n: Node, n': Node, p: Id) {
    && n'.term == n.term && |n.log| <= |n'.log| && p in n'.nextIndex && 1 <= n'.nextIndex[p] <= |n'.log| + 1
    && forall q :: Call(n', p, q) ==> Call(n, p, q) || (q.prevIndex == n'.nextIndex[p] - 1 && EndOf(q) == |n'.log|)
  }

  lemma RowKept(n: Node, n': Node, p: Id)
    requires RowOk(n, p) && GoesOn(n, n', p) && p in n'.matchIndex
    requires n'.matchIndex[p] == n.matchIndex[p] && n'.nextIndex[p] <= n.nextIndex[p]
    ensures RowOk(n', p) && (Streaming(n, p) ==> Streaming(n', p))
  {
    hide Call;
  }

  lemma RowAcknowledged(n: Node, n': Node, p: Id, q: AppendRequest)
    requires RowOk(n, p) && GoesOn(n, n', p) && Call(n, p, q) && p in n'.matchIndex
    requires n'.matchIndex[p] == (if n.matchIndex[p] >= EndOf(q) then n.matchIndex[p] else EndOf(q))
    requires n'.nextIndex[p] == n'.matchIndex[p] + 1
    ensures Streaming(n', p)
  {
    hide Call;
  }

  /* ---- Handler by handler ---- */

  /** What a step makes of a node that leads after it: new in office with its rows in order, or in office as before. */
  ghost predicate KeepsRows(n: Node, n': Node) {
    && (RowsOk(n) ==> RowsOk(n'))
    && (n.status == n'.status == Leader && n.term == n'.term ==>
          forall p :: p in n.nextIndex && Streaming(n, p) ==> Streaming(n', p))
  }

  lemma SameRows(n: Node, n': Node)
    requires n'.status != Leader || (n'.nextIndex == n.nextIndex && n'.matchIndex == n.matchIndex && n'.term == n.term
                                     && n'.log == n.log && n'.appendRequests == n.appendRequests && n.status == Leader)
    ensures KeepsRows(n, n')
  {
    if n'.status == Leader {
      assert forall p, q :: Call(n', p, q) <==> Call(n, p, q);
      forall p | p in n.nextIndex
        ensures RowOk(n, p) ==> RowOk(n', p)
        ensures Streaming(n, p) ==> Streaming(n', p)
      {
        hide Call;
      }
    }
  }

  /** No request of the term a candidate stands for is out before it takes office. */
  ghost predicate NoCallYet(n: Node) {
    forall q :: q in n.appendRequests ==> q.term != n.term
  }

  lemma OfficeRows(n: Node)
    requires NoCallYet(n)
    ensures RowsOk(BecomeLeader(n))
  {
    OfficeMeans(n);
    BecomeLeaderFrame(n);
    var n' := BecomeLeader(n);
    hide BecomeLeader;
    forall p | p in n'.nextIndex
      ensures RowOk(n', p)
    {
      assert forall q :: Call(n', p, q) ==> q == Announcement(n, p);
    }
  }

  lemma TimeoutRows(n: Node)
    requires n.status == Leader ==> !n.timerArmed
    ensures KeepsRows(n, OnElectionTimeout(n))
  {
    if n.timerArmed {
      TimeoutMeans(n);
      if n.peers == {} {
        AloneRows(n);
      }
    } else {
      SameRows(n, n);
    }
    hide StartElection;
  }

  lemma AloneRows(n: Node)
    requires n.timerArmed && n.peers == {}
    ensures OnElectionTimeout(n).nextIndex == map[]
  {
    OfficeMeans(Candidacy(n));
    hide BecomeLeader;
  }

  lemma VoteRequestRows(n: Node, q: VoteRequest)
    requires q.candidate != n.id && (n.status == Leader ==> n.votedFor == Some(n.id))
    ensures KeepsRows(n, HandleVoteRequest(n, q).0)
  {
    VoteMeans(n, q);
    VoteRequestRequests(n, q);
    hide HandleVoteRequest;
    SameRows(n, HandleVoteRequest(n, q).0);
  }

  lemma VoteRequestRequests(n: Node, q: VoteRequest)
    ensures !HandleVoteRequest(n, q).1.granted && q.term <= n.term ==> HandleVoteRequest(n, q).0 == n
  {
    hide Grants;
  }

  lemma VoteReplyRows(n: Node, v: VoteReply)
    requires n.status == Candidate ==> NoCallYet(n)
    ensures KeepsRows(n, OnVoteReply(n, v))
  {
    hide BecomeLeader;
    SameRows(n, n);
    SameRows(n, BecomeFollower(n, v.term));
    if n.status == Candidate {
      OfficeRows(n.(votes := n.votes + 1));
    }
    hide RowsOk, RowOk, Streaming;
  }

  lemma AppendRows(n: Node, m: AppendRequest)
    requires KeepsCommitted(n, m)
    ensures KeepsRows(n, HandleAppend(n, m).0)
  {
    AppendMeans(n, m);
    hide HandleAppend;
    SameRows(n, HandleAppend(n, m).0);
  }

  /** New calls are requests for p with this cursor and this log. */
  lemma NewCalls(n: Node, x: Node, n': Node, p: Id)
    requires n'.term == n.term && |n.log| <= |n'.log| && p in n'.nextIndex && 1 <= n'.nextIndex[p] <= |n'.log| + 1
    requires x.log == n'.log && x.nextIndex == n'.nextIndex
    requires forall q :: q in n'.appendRequests && q.to == p ==> q in n.appendRequests || IsRequestFor(x, p, q)
    ensures GoesOn(n, n', p)
  {
  }

  lemma InRow(n: Node, p: Id)
    ensures RowOk(n, p) ==> p in n.matchIndex && p in n.nextIndex
    ensures Streaming(n, p) ==> RowOk(n, p)
  {
  }

  /** Nothing but the calls and the log, which grows, has changed, and every row is as it was. */
  lemma RowsGoOn(n: Node, n': Node)
    requires n.status == n'.status == Leader && n'.nextIndex == n.nextIndex && n'.matchIndex == n.matchIndex
    requires forall p :: p in n.nextIndex ==> GoesOn(n, n', p)
    ensures KeepsRows(n, n')
  {
    hide GoesOn, RowOk, Streaming;
    forall p | p in n.nextIndex
      ensures RowOk(n, p) ==> RowOk(n', p)
      ensures Streaming(n, p) ==> Streaming(n', p)
    {
      InRow(n, p);
      if RowOk(n, p) {
        RowKept(n, n', p);
      }
    }
  }

  lemma HeartbeatRows(n: Node)
    requires CursorsInRange(n) && (n.status == Leader ==> n.nextIndex.Keys == n.peers)
    ensures KeepsRows(n, ReplicateToAll(n))
  {
    hide RequestFor, KeepsRows;
    var n' := ReplicateToAll(n);
    if n.status == Leader {
      HeartbeatMeans(n);
      ReplicateToAllFrame(n);
      hide ReplicateToAll, IsRequestFor, GoesOn;
      forall p | p in n.nextIndex
        ensures GoesOn(n, n', p)
      {
        NewCalls(n, n, n', p);
      }
      RowsGoOn(n, n');
    } else {
      SameRows(n, n);
    }
  }

  lemma SubmitRows(n: Node, c: Command)
    requires CursorsInRange(n) && n.commit <= |n.log| && (n.status == Leader ==> n.nextIndex.Keys == n.peers)
    ensures KeepsRows(n, Submit(n, c))
  {
    var n', queued := Submit(n, c), n.(log := n.log + [LogEntry(n.term, c)]);
    if n.status == Leader {
      SubmitMeans(n, c);
      hide Submit, IsRequestFor;
      forall p | p in n.nextIndex
        ensures GoesOn(n, n', p)
      {
        NewCalls(n, queued, n', p);
      }
      RowsGoOn(n, n');
    } else {
      SameRows(n, n');
    }
  }

  /** The call a reply answers: with this the callback knows from where and how much was sent. */
  ghost predicate AnswersCall(n: Node, r: AppendReply) {
    exists q :: q in n.appendRequests && q.to == r.from && q.term == r.roundTerm && q.prevIndex == r.prevIndex
                && |q.entries| == r.sentCount
  }

  /** A reply that settles nothing leaves rows and calls alone, or deposes. */
  lemma OtherReplyRows(n: Node, r: AppendReply)
    requires ReplyInRange(n, r) && (r.term > n.term || n.status != Leader || r.roundTerm != n.term)
    ensures KeepsRows(n, OnAppendReply(n, r))
  {
    OtherReplyMeans(n, r);
    hide OnAppendReply, ReplyInRange;
    SameRows(n, OnAppendReply(n, r));
  }

  /** This leader settles p's answer. */
  predicate Settles(n: Node, r: AppendReply) {
    ReplyInRange(n, r) && n.status == Leader && r.roundTerm == n.term && r.term <= n.term
  }

  lemma AnsweredInRange(n: Node, r: AppendReply)
    requires Settles(n, r)
    ensures r.from in n.nextIndex && r.from in n.matchIndex && n.matchIndex[r.from] <= |n.log|
    ensures r.success ==> r.prevIndex + r.sentCount <= |n.log|
    ensures forall p :: p in n.nextIndex ==> 1 <= n.nextIndex[p] <= |n.log| + 1
  {
  }

  lemma SuccessRows(n: Node, r: AppendReply)
    requires Settles(n, r) && r.success && AnswersCall(n, r)
    ensures var n' := OnAppendReply(n, r);
            && KeepsRows(n, n')
            && (RowOk(n, r.from) ==> Streaming(n', r.from))
  {
    SuccessMeans(n, r);
    AnsweredInRange(n, r);
    var n', q :| n' == OnAppendReply(n, r) && q in n.appendRequests && q.to == r.from && q.term == r.roundTerm
                 && q.prevIndex == r.prevIndex && |q.entries| == r.sentCount;
    hide OnAppendReply, ReplyInRange, AnswersCall, RowOk, GoesOn, Streaming, IsRequestFor;
    forall p | p in n.nextIndex
      ensures RowOk(n, p) ==> RowOk(n', p) && (p == r.from ==> Streaming(n', p))
      ensures Streaming(n, p) ==> Streaming(n', p)
    {
      InRow(n, p);
      InRow(n', p);
      RequestsTo(n, n', p, r.from);
      NewCalls(n, n', n', p);
      if RowOk(n, p) {
        if p == r.from {
          RowAcknowledged(n, n', p, q);
        } else {
          RowKept(n, n', p);
        }
      }
    }
  }

  lemma RequestsTo(n: Node, n': Node, p: Id, to: Id)
    requires to in n'.nextIndex && 1 <= n'.nextIndex[to] <= |n'.log| + 1
    requires p in n'.nextIndex && 1 <= n'.nextIndex[p] <= |n'.log| + 1
    requires forall m :: m in n'.appendRequests ==> m in n.appendRequests || IsRequestFor(n', to, m)
    ensures forall m :: m in n'.appendRequests && m.to == p ==> m in n.appendRequests || IsRequestFor(n', p, m)
  {
  }

  lemma FailureRows(n: Node, r: AppendReply)
    requires Settles(n, r) && !r.success
    ensures KeepsRows(n, OnAppendReply(n, r))
  {
    FailureMeans(n, r);
    AnsweredInRange(n, r);
    var n' := OnAppendReply(n, r);
    hide OnAppendReply, ReplyInRange, RowOk, GoesOn, Streaming, IsRequestFor;
    forall p | p in n.nextIndex
      ensures RowOk(n, p) ==> RowOk(n', p)
      ensures Streaming(n, p) ==> Streaming(n', p)
    {
      InRow(n, p);
      RequestsTo(n, n', p, r.from);
      NewCalls(n, n', n', p);
      if RowOk(n, p) {
        RowKept(n, n', p);
      }
    }
  }

  /* ---- Steps of the cluster ---- */

  ghost predicate SameOrMore(n: Node, n': Node) {
    n'.id == n.id && n.appendRequests <= n'.appendRequests
  }

  lemma OfficeSends(n: Node)
    ensures SameOrMore(n, BecomeLeader(n))
  {
    TakeOfficeInRange(n);
    hide RequestFor, CursorsInRange;
  }

  lemma TimeoutSends(n: Node)
    ensures SameOrMore(n, OnElectionTimeout(n))
  {
    hide BecomeLeader;
    OfficeSends(Candidacy(n));
  }

  lemma VoteRequestSends(n: Node, q: VoteRequest)
    ensures SameOrMore(n, HandleVoteRequest(n, q).0)
  {
    hide Grants;
  }

  lemma VoteReplySends(n: Node, v: VoteReply)
    ensures SameOrMore(n, OnVoteReply(n, v))
  {
    hide BecomeLeader;
    OfficeSends(n.(votes := n.votes + 1));
  }

  lemma AppendSends(n: Node, m: AppendRequest)
    requires KeepsCommitted(n, m)
    ensures SameOrMore(n, HandleAppend(n, m).0)
  {
    hide Merge, ApplyCommitted;
    if Accepts(n, m) {
      ApplyFrame(LearnCommit(MergeInto(Recognise(n, m), m), m.leaderCommit, m.prevIndex + |m.entries|));
    }
  }

  lemma ReplySends(n: Node, r: AppendReply)
    requires ReplyInRange(n, r)
    ensures SameOrMore(n, OnAppendReply(n, r))
  {
    AppendReplyKeepsId(n, r);
    if r.term > n.term || n.status != Leader || r.roundTerm != n.term {
      OtherReplyMeans(n, r);
    } else if r.success {
      SuccessMeans(n, r);
    } else {
      FailureMeans(n, r);
    }
    hide OnAppendReply, ReplyInRange;
  }

  lemma HeartbeatSends(n: Node)
    requires CursorsInRange(n)
    ensures SameOrMore(n, ReplicateToAll(n))
  {
    hide RequestFor;
  }

  lemma SubmitSends(n: Node, c: Command)
    requires CursorsInRange(n) && n.commit <= |n.log|
    ensures SameOrMore(n, Submit(n, c))
  {
    SubmitKeepsId(n, c);
    hide Settle, RequestFor;
    if n.status == Leader {
      SettleFrame(ReplicateToAll(Enqueue(n, c)));
    }
  }

  /** Every reply on its way back answers a call of the node it goes to. */
  ghost predicate RepliesCalled(c: Cluster) {
    forall r :: r in c.appendReplies && r.to in c.nodes ==> AnswersCall(c.nodes[r.to], r)
  }

  lemma AnsweredStill(n: Node, n': Node, r: AppendReply)
    requires SameOrMore(n, n') && AnswersCall(n, r)
    ensures AnswersCall(n', r)
  {
  }

  lemma ReplyAnswers(n: Node, f: Node, m: AppendRequest)
    requires KeepsCommitted(f, m) && m in n.appendRequests && m.to == f.id
    ensures AnswersCall(n, HandleAppend(f, m).1) && HandleAppend(f, m).1.to == m.leader
  {
    AppendMeans(f, m);
    hide HandleAppend;
  }

  lemma NodeForCalls(c: Cluster, h: History, i: Id)
    requires Inv(c, h) && i in c.nodes
    ensures var n := c.nodes[i];
            && n.id == i && CursorsInRange(n) && n.commit <= |n.log|
            && (n.status == Leader ==> !n.timerArmed && n.nextIndex.Keys == n.peers && n.votedFor == Some(n.id))
            && (n.status == Candidate ==> NoCallYet(n))
  {
    hide HistoryOk;
    AtNode(c, h, i);
    var n := c.nodes[i];
    assert VotingOk(h, n) && OfficeOk(h, n) && SentOk(h, n);
  }

  /** What a step does to the calls of node i, whoever's step it is. */
  lemma NodeStep(c: Cluster, h: History, s: Step, i: Id)
    requires Inv(c, h) && Enabled(c, s) && RepliesCalled(c) && i in c.nodes
    ensures Defined(c, s) && i in After(c, s).nodes
    ensures KeepsRows(c.nodes[i], After(c, s).nodes[i]) && SameOrMore(c.nodes[i], After(c, s).nodes[i])
    ensures s.DeliverAppendReply? && s.r.to == i && Settles(c.nodes[i], s.r) && s.r.success && RowOk(c.nodes[i], s.r.from)
            ==> Streaming(After(c, s).nodes[i], s.r.from)
  {
    hide Inv, KeepsRows, SameOrMore, RowOk, Streaming, Settles, AnswersCall, OnElectionTimeout, OnVoteReply, ReplicateToAll,
         HandleVoteRequest, HandleAppend, OnAppendReply, Submit, KeepsCommitted, ReplyInRange, CursorsInRange;
    EveryStepDefined(c, h, s);
    SameRows(c.nodes[i], c.nodes[i]);
    SameIds();
    match s
    case ElectionTimeout(j) =>
      NodeForCalls(c, h, j);
      TimeoutRows(c.nodes[j]);
      TimeoutSends(c.nodes[j]);
    case Heartbeat(j) =>
      NodeForCalls(c, h, j);
      HeartbeatRows(c.nodes[j]);
      HeartbeatSends(c.nodes[j]);
    case DeliverVoteRequest(q) =>
      NodeForCalls(c, h, q.to);
      SentVoteRequest(c, h, q);
      VoteRequestRows(c.nodes[q.to], q);
      VoteRequestSends(c.nodes[q.to], q);
    case DeliverVoteReply(v) =>
      NodeForCalls(c, h, v.to);
      VoteReplyRows(c.nodes[v.to], v);
      VoteReplySends(c.nodes[v.to], v);
    case DeliverAppend(m) =>
      NodeForCalls(c, h, m.to);
      AppendRows(c.nodes[m.to], m);
      AppendSends(c.nodes[m.to], m);
    case DeliverAppendReply(r) =>
      NodeForCalls(c, h, r.to);
      ReplyRows(c.nodes[r.to], r);
      ReplySends(c.nodes[r.to], r);
    case AppendFailed(j, p) =>
      NodeForCalls(c, h, j);
      FailedRows(c.nodes[j], p);
    case ClientCommand(j, command) =>
      NodeForCalls(c, h, j);
      SubmitRows(c.nodes[j], command);
      SubmitSends(c.nodes[j], command);
  }

  lemma SameIds()
    ensures forall n :: SameOrMore(n, n)
    ensures forall n, n' :: SameOrMore(n, n') ==> n'.id == n.id
  {
  }

  lemma FailedRows(n: Node, p: Id)
    ensures KeepsRows(n, OnAppendFailure(n, p)) && SameOrMore(n, OnAppendFailure(n, p))
  {
    SameRows(n, OnAppendFailure(n, p));
  }

  lemma ReplyRows(n: Node, r: AppendReply)
    requires ReplyInRange(n, r) && AnswersCall(n, r)
    ensures KeepsRows(n, OnAppendReply(n, r))
    ensures Settles(n, r) && r.success && RowOk(n, r.from) ==> Streaming(OnAppendReply(n, r), r.from)
  {
    hide KeepsRows, OnAppendReply, RowOk, Streaming, AnswersCall;
    if !Settles(n, r) {
      OtherReplyRows(n, r);
    } else if r.success {
      SuccessRows(n, r);
    } else {
      FailureRows(n, r);
    }
  }

  /* ---- Runs ---- */

  /** Every leader's calls are in order, and every reply answers one. */
  ghost predicate CallsOk(c: Cluster) {
    RepliesCalled(c) && forall i :: i in c.nodes ==> RowsOk(c.nodes[i])
  }

  lemma StepRowsInOrder(c: Cluster, h: History, s: Step)
    requires Inv(c, h) && Enabled(c, s) && Defined(c, s) && CallsOk(c)
    ensures var c' := After(c, s);
            c'.nodes.Keys == c.nodes.Keys && forall i :: i in c'.nodes ==> RowsOk(c'.nodes[i])
  {
    hide Inv, RowsOk, RowOk, Streaming, Settles, AnswersCall, SameOrMore, Enabled, Defined, After;
    NodesRemain(c, h, s);
    forall i | i in c.nodes
      ensures RowsOk(After(c, s).nodes[i])
    {
      NodeStep(c, h, s, i);
    }
  }

  lemma StepReplies(c: Cluster, h: History, s: Step)
    requires Inv(c, h) && Enabled(c, s) && Defined(c, s) && CallsOk(c)
    ensures RepliesCalled(After(c, s))
  {
    hide Inv, KeepsRows, RowOk, Streaming, Settles, AnswersCall, SameOrMore, Enabled, Defined, After;
    NodesRemain(c, h, s);
    forall r | r in After(c, s).appendReplies && r.to in c.nodes
      ensures AnswersCall(After(c, s).nodes[r.to], r)
    {
      NodeStep(c, h, s, r.to);
      ReplyCalled(c, h, s, r);
      AnsweredStill(c.nodes[r.to], After(c, s).nodes[r.to], r);
    }
  }

  lemma NodesRemain(c: Cluster, h: History, s: Step)
    requires Inv(c, h) && Enabled(c, s) && Defined(c, s)
    ensures After(c, s).nodes.Keys == c.nodes.Keys
  {
    hide After, HistoryOk, NodeOk;
    var h' := StepKeepsInv(c, h, s, After(c, s));
  }

  lemma ReplyCalled(c: Cluster, h: History, s: Step, r: AppendReply)
    requires Inv(c, h) && Enabled(c, s) && Defined(c, s) && RepliesCalled(c)
    requires r in After(c, s).appendReplies && r.to in c.nodes
    ensures AnswersCall(c.nodes[r.to], r)
  {
    hide Inv, AnswersCall, OnElectionTimeout, OnVoteReply, ReplicateToAll, HandleVoteRequest, HandleAppend, OnAppendReply,
         Submit, KeepsCommitted, ReplyInRange, CursorsInRange;
    if r !in c.appendReplies {
      NodeForCalls(c, h, s.m.to);
      ReplyAnswers(c.nodes[s.m.leader], c.nodes[s.m.to], s.m);
    }
  }

  lemma {:induction false} CallsInOrder(ids: set<Id>, trace: seq<Cluster>, steps: seq<Step>, k: nat)
    requires Run(ids, trace, steps) && k < |trace|
    ensures CallsOk(trace[k])
    decreases k
  {
    hide Inv, Enabled, Defined, After, RepliesCalled, RowsOk;
    if k == 0 {
      NoCallsAtFirst(ids);
    } else {
      CallsInOrder(ids, trace, steps, k - 1);
      StepIsDefined(ids, trace, steps, k - 1);
      var hs := RunHasChronicle(ids, trace, steps);
      StepRowsInOrder(trace[k - 1], hs[k - 1], steps[k - 1]);
      StepReplies(trace[k - 1], hs[k - 1], steps[k - 1]);
    }
  }

  lemma NoCallsAtFirst(ids: set<Id>)
    ensures CallsOk(InitialCluster(ids))
  {
  }

  /** Once it streams, a leader streams for as long as it leads the term. */
  lemma {:induction false} StreamsOn(
    ids: set<Id>, trace: seq<Cluster>, steps: seq<Step>, i: Id, p: Id, term: nat, j: nat, k: nat)
    requires Run(ids, trace, steps) && j <= k < |trace| && LeadsThroughout(trace, i, p, term, j, k)
    requires Streaming(trace[j].nodes[i], p)
    ensures Streaming(trace[k].nodes[i], p)
    decreases k - j
  {
    hide Next, Inv, Streaming, Enabled, Defined, After, CallsOk;
    if j < k {
      StreamsOn(ids, trace, steps, i, p, term, j, k - 1);
      StepStreams(ids, trace, steps, k - 1, i, p);
    }
  }

  lemma StepStreams(ids: set<Id>, trace: seq<Cluster>, steps: seq<Step>, k: nat, i: Id, p: Id)
    requires Run(ids, trace, steps) && k < |steps| && k + 1 < |trace| && i in trace[k].nodes && i in trace[k + 1].nodes
    requires LeadsTerm(trace[k], i, p, trace[k].nodes[i].term) && LeadsTerm(trace[k + 1], i, p, trace[k].nodes[i].term)
    requires Streaming(trace[k].nodes[i], p) || Succeeds(trace[k], steps[k], i, p)
    ensures Streaming(trace[k + 1].nodes[i], p)
  {
    hide Run, Inv, Streaming, Enabled, Defined, After, RowOk;
    var c, s := trace[k], steps[k];
    CallsInOrder(ids, trace, steps, k);
    StepIsDefined(ids, trace, steps, k);
    var hs := RunHasChronicle(ids, trace, steps);
    NodeStep(c, hs[k], s, i);
    if Succeeds(c, s, i, p) {
      hide KeepsRows, RepliesCalled;
      ReplyIsDefined(c, s);
      assert RowOk(c.nodes[i], p);
    }
  }

  lemma ReplyIsDefined(c: Cluster, s: Step)
    requires Enabled(c, s) && Defined(c, s) && s.DeliverAppendReply?
    ensures ReplyInRange(c.nodes[s.r.to], s.r)
  {
  }

  /** The moment at which a reply is given. */
  lemma {:induction false} Given(trace: seq<Cluster>, r: AppendReply, j: nat, k: nat) returns (g: nat)
    requires j <= k < |trace| && r !in trace[j].appendReplies && r in trace[k].appendReplies
    ensures j <= g < k && r !in trace[g].appendReplies && r in trace[g + 1].appendReplies
    decreases k - j
  {
    g := j;
    if r !in trace[j + 1].appendReplies {
      g := Given(trace, r, j + 1, k);
    }
  }

  /** Only handling a request gives a reply. */
  lemma GivenBy(c: Cluster, s: Step, r: AppendReply)
    requires Enabled(c, s) && Defined(c, s) && r !in c.appendReplies && r in After(c, s).appendReplies
    ensures s.DeliverAppend? && s.m.to in c.nodes && s.m.leader in c.nodes && s.m in c.nodes[s.m.leader].appendRequests
    ensures KeepsCommitted(c.nodes[s.m.to], s.m) && r == HandleAppend(c.nodes[s.m.to], s.m).1
  {
    hide OnElectionTimeout, OnVoteReply, ReplicateToAll, HandleVoteRequest, HandleAppend, OnAppendReply, Submit,
         KeepsCommitted, ReplyInRange, CursorsInRange;
  }

  /** A follower of the leader's term accepts any call that starts no later than what it is known to hold. */
  lemma KnownAccepts(h: History, l: Node, f: Node, delivered: set<(Id, nat, Id)>, q: AppendRequest)
    requires NodeOk(delivered, h, l) && NodeOk(delivered, h, f) && l.status == Leader && f.id in l.matchIndex
    requires q in l.appendRequests && q.term == l.term && f.term <= l.term && q.prevIndex <= l.matchIndex[f.id]
    ensures Accepts(f, q)
  {
    hide HistoryOk, CommitJustified, LocalOk, TermsOk, ClientsOk, BallotOk;
    if q.prevIndex > 0 {
      var a := Ack(f.id, l.term, l.matchIndex[f.id]);
      assert a in h.acks;
      HolderAccepts(h, f, a, q);
    }
  }

  /** Where a call of this term is handled by p while the leader streams, it succeeds or p is in a later term. */
  lemma StreamedSucceeds(c: Cluster, h: History, i: Id, q: AppendRequest)
    requires Inv(c, h) && i in c.nodes && q.to in c.nodes && c.nodes[i].status == Leader
    requires Call(c.nodes[i], q.to, q) && Streaming(c.nodes[i], q.to) && KeepsCommitted(c.nodes[q.to], q)
    ensures var r := HandleAppend(c.nodes[q.to], q).1; r.success || r.term > c.nodes[i].term
  {
    var l, f := c.nodes[i], c.nodes[q.to];
    AppendMeans(f, q);
    AtNode(c, h, i);
    AtNode(c, h, q.to);
    hide Inv, NodeOk, HandleAppend, KeepsCommitted, HistoryOk, LocalOk, LogOk, RepliesOk;
    if f.term <= l.term {
      KnownAccepts(h, l, f, c.delivered, q);
    }
  }

  /**
   A rejection that reaches the leader after a success of the same peer in the same term was given before the success came in:
   it answers an earlier call than the last one answered.
   */
  lemma LateRejectionIsOld(ids: set<Id>, trace: seq<Cluster>, steps: seq<Step>, i: Id, p: Id, term: nat, j: nat, k: nat)
    requires Run(ids, trace, steps) && j < k < |steps| && LeadsThroughout(trace, i, p, term, j, k)
    requires Succeeds(trace[j], steps[j], i, p) && Answers(trace[k], steps[k], i, p) && !steps[k].r.success
    ensures steps[k].r in trace[j].appendReplies
  {
    hide Enabled, Defined, After, Run, Next, LeadsTerm, Streaming;
    var r := steps[k].r;
    StepIsDefined(ids, trace, steps, k);
    InOutbox(trace[k], steps[k]);
    if r !in trace[j].appendReplies {
      StepIsDefined(ids, trace, steps, j);
      AnswerGivesNothing(trace[j], steps[j]);
      var g := Given(trace, r, j + 1, k);
      LeadsMeans(trace, i, p, term, j, k);
      StepStreams(ids, trace, steps, j, i, p);
      StreamsOn(ids, trace, steps, i, p, term, j + 1, g);
      GivenSuccess(ids, trace, steps, g, i, p, r);
    }
  }

  lemma LeadsMeans(trace: seq<Cluster>, i: Id, p: Id, term: nat, j: nat, k: nat)
    requires LeadsThroughout(trace, i, p, term, j, k)
    ensures forall m :: j <= m <= k ==>
              LeadsTerm(trace[m], i, p, term) && i in trace[m].nodes && trace[m].nodes[i].term == term
              && trace[m].nodes[i].status == Leader
  {
  }

  lemma AnswerGivesNothing(c: Cluster, s: Step)
    requires Enabled(c, s) && Defined(c, s) && s.DeliverAppendReply?
    ensures After(c, s).appendReplies == c.appendReplies
  {
  }

  /** A reply given to a call of this term while the leader streams. */
  lemma GivenSuccess(ids: set<Id>, trace: seq<Cluster>, steps: seq<Step>, g: nat, i: Id, p: Id, r: AppendReply)
    requires Run(ids, trace, steps) && g < |steps| && g + 1 < |trace|
    requires i in trace[g].nodes && trace[g].nodes[i].status == Leader && Streaming(trace[g].nodes[i], p)
    requires r !in trace[g].appendReplies && r in trace[g + 1].appendReplies
    requires r.from == p && r.to == i && r.roundTerm == trace[g].nodes[i].term
    ensures r.success || r.term > r.roundTerm
  {
    hide Inv, Enabled, Defined, After, HandleAppend, KeepsCommitted, Streaming, HistoryOk, NodeOk, Next;
    StepIsDefined(ids, trace, steps, g);
    var c := trace[g];
    GivenBy(c, steps[g], r);
    var q := steps[g].m;
    var hs := RunHasChronicle(ids, trace, steps);
    NodeForCalls(c, hs[g], q.to);
    ReplyNames(c.nodes[q.to], q);
    StreamedSucceeds(c, hs[g], i, q);
  }

  lemma ReplyNames(n: Node, q: AppendRequest)
    requires KeepsCommitted(n, q)
    ensures var r := HandleAppend(n, q).1; r.from == n.id && r.to == q.leader && r.roundTerm == q.term
  {
    AppendMeans(n, q);
    hide HandleAppend;
  }

  /* ---- Answers that come to the call they answer ---- */

  /**
   Every rejection of p's that comes in was given after the answers before it came in, as when calls to p do not overlap. They
   can: the mark that a call is in flight is also cleared by a callback left from an earlier term.
   */
  ghost predicate InTurn(trace: seq<Cluster>, steps: seq<Step>, i: Id, p: Id, j: nat, k: nat) {
    && k <= |steps| && |trace| == |steps| + 1
    && forall m: nat, m': nat ::
         j <= m < m' < k && Answers(trace[m], steps[m], i, p) && Answers(trace[m'], steps[m'], i, p) ==>
           steps[m'].r.success || steps[m'].r !in trace[m].appendReplies
  }

  ghost predicate SuccessAt(trace: seq<Cluster>, steps: seq<Step>, i: Id, p: Id, j: nat, k: nat, m: nat)
    requires k <= |steps| && |trace| == |steps| + 1
  {
    j <= m < k && Succeeds(trace[m], steps[m], i, p) && NoSuccessFrom(trace, steps, i, p, m + 1, k)
  }

  /** The last success, if there is one. */
  lemma {:induction false} LastSuccess(trace: seq<Cluster>, steps: seq<Step>, i: Id, p: Id, j: nat, k: nat)
    requires j <= k <= |steps| && |trace| == |steps| + 1
    ensures NoSuccessFrom(trace, steps, i, p, j, k) || exists m: nat :: SuccessAt(trace, steps, i, p, j, k, m)
    decreases k - j
  {
    hide Answers;
    if j < k {
      var rest := j + 1;
      LastSuccess(trace, steps, i, p, rest, k);
      if m: nat :| SuccessAt(trace, steps, i, p, rest, k, m) {
        assert SuccessAt(trace, steps, i, p, j, k, m);
      } else if Succeeds(trace[j], steps[j], i, p) {
        assert SuccessAt(trace, steps, i, p, j, k, j);
      }
    }
  }

  /** With answers in turn a leader's cursor stays ahead of what it knows of the peer, from taking office on. */
  lemma AheadInTurn(ids: set<Id>, trace: seq<Cluster>, steps: seq<Step>, i: Id, p: Id, term: nat, j: nat, k: nat)
    requires Run(ids, trace, steps) && j <= k < |trace| && LeadsThroughout(trace, i, p, term, j, k)
    requires p in trace[j].nodes[i].matchIndex && trace[j].nodes[i].matchIndex[p] == 0
    requires InTurn(trace, steps, i, p, j, k)
    ensures Ahead(trace[k], i, p)
  {
    hide Next, Answers, Ahead, LeadsTerm;
    LastSuccess(trace, steps, i, p, j, k);
    if NoSuccessFrom(trace, steps, i, p, j, k) {
      AheadBeforeSuccess(ids, trace, steps, i, p, term, j, k);
    } else {
      var m: nat :| SuccessAt(trace, steps, i, p, j, k, m);
      forall m': nat | m < m' < k
        ensures !Answers(trace[m'], steps[m'], i, p)
      {
        if Answers(trace[m'], steps[m'], i, p) {
          LateRejectionIsOld(ids, trace, steps, i, p, term, m, m');
        }
      }
      AheadExactly(ids, trace, steps, i, p, term, m, k);
    }
  }
}
