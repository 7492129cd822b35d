/**
 Runs of a cluster. Each step is one event-loop task of one node. Where the source would
 throw (`Defined` fails) a step may lead anywhere, so the invariant of all runs also
 shows that no such exception ever happens.
 */
module RaftCluster {
  import opened KeyValue
  import opened RaftProtocol
  import opened RaftHistory
  import opened RaftGrowth
  import opened RaftInvariant
  import opened RaftElections
  import opened RaftReplication
  import opened RaftHandlers

  datatype Step =
    | ElectionTimeout(i: Id)
    | Heartbeat(i: Id)
    | DeliverVoteRequest(q: VoteRequest)
    | DeliverVoteReply(v: VoteReply)
    | DeliverAppend(m: AppendRequest)
    | DeliverAppendReply(r: AppendReply)
    | AppendFailed(i: Id, p: Id)
    | ClientCommand(i: Id, c: Command)

  function InitialCluster(ids: set<Id>): Cluster {
    Cluster(map i | i in ids :: Initial(i, ids - {i}), {}, {}, {})
  }

  function With(c: Cluster, n: Node): Cluster {
    c.(nodes := c.nodes[n.id := n])
  }

  predicate Enabled(c: Cluster, s: Step) {
    match s
    case ElectionTimeout(i) => i in c.nodes
    case Heartbeat(i) => i in c.nodes
    case DeliverVoteRequest(q) =>
      q.candidate in c.nodes && q in c.nodes[q.candidate].voteRequests && q.to in c.nodes
    case DeliverVoteReply(v) => v in c.voteReplies && v.to in c.nodes && (v.to, v.roundTerm, v.from) !in c.delivered
    case DeliverAppend(m) => m.leader in c.nodes && m in c.nodes[m.leader].appendRequests && m.to in c.nodes
    case DeliverAppendReply(r) => r in c.appendReplies && r.to in c.nodes
    case AppendFailed(i, p) => i in c.nodes
    case ClientCommand(i, _) => i in c.nodes
  }

  /** The step's handler runs without an exception. */
  predicate Defined(c: Cluster, s: Step)
    requires Enabled(c, s)
  {
    match s
    case Heartbeat(i) => CursorsInRange(c.nodes[i])
    case DeliverAppend(m) => KeepsCommitted(c.nodes[m.to], m)
    case DeliverAppendReply(r) => ReplyInRange(c.nodes[r.to], r)
    case ClientCommand(i, _) => CursorsInRange(c.nodes[i]) && c.nodes[i].commit <= |c.nodes[i].log|
    case _ => true
  }

  function After(c: Cluster, s: Step): Cluster
    requires Enabled(c, s) && Defined(c, s)
  {
    match s
    case ElectionTimeout(i) => With(c, OnElectionTimeout(c.nodes[i]))
    case Heartbeat(i) => With(c, ReplicateToAll(c.nodes[i]))
    case DeliverVoteRequest(q) =>
      var (n, r) := HandleVoteRequest(c.nodes[q.to], q);
      With(c, n).(voteReplies := c.voteReplies + {r})
    case DeliverVoteReply(v) =>
      With(c, OnVoteReply(c.nodes[v.to], v)).(delivered := c.delivered + {(v.to, v.roundTerm, v.from)})
    case DeliverAppend(m) =>
      var (n, r) := HandleAppend(c.nodes[m.to], m);
      With(c, n).(appendReplies := c.appendReplies + {r})
    case DeliverAppendReply(r) => With(c, OnAppendReply(c.nodes[r.to], r))
    case AppendFailed(i, p) => With(c, OnAppendFailure(c.nodes[i], p))
    case ClientCommand(i, command) => With(c, Submit(c.nodes[i], command))
  }

  ghost predicate Next(c: Cluster, s: Step, c': Cluster) {
    Enabled(c, s) && (Defined(c, s) ==> c' == After(c, s))
  }

  /* ---- Every step is defined ---- */

  lemma EveryStepDefined(c: Cluster, h: History, s: Step)
    requires Inv(c, h) && Enabled(c, s)
    ensures Defined(c, s)
  {
    match s
    case Heartbeat(i) => AtNode(c, h, i);
    case ClientCommand(i, _) => AtNode(c, h, i);
    case DeliverAppend(m) =>
      AtNode(c, h, m.to);
      SentAppend(c, h, m);
      DeliveryDefined(h, c.nodes[m.to], m);
    case DeliverAppendReply(r) =>
      AtNode(c, h, r.to);
      ReplyDefined(c.delivered, h, c.nodes[r.to], r);
    case _ =>
  }

  lemma AtNode(c: Cluster, h: History, i: Id)
    requires Inv(c, h) && i in c.nodes
    ensures HistoryOk(h) && NodeOk(c.delivered, h, c.nodes[i]) && c.nodes[i].id == i && i in h.ids
    ensures LocalOk(c.nodes[i]) && LogOk(h, c.nodes[i])
    ensures RepliesOk(c, h)
  {
  }

  lemma SentAppend(c: Cluster, h: History, m: AppendRequest)
    requires Inv(c, h) && m.leader in c.nodes && m in c.nodes[m.leader].appendRequests
    ensures AppendRequestOk(h, m) && m.leader != m.to && m.to in h.ids
  {
    var n := c.nodes[m.leader];
    assert NodeOk(c.delivered, h, n);
    assert SentOk(h, n);
  }

  lemma SentVoteRequest(c: Cluster, h: History, q: VoteRequest)
    requires Inv(c, h) && q.candidate in c.nodes && q in c.nodes[q.candidate].voteRequests
    ensures VoteRequestOk(c.nodes[q.candidate], q) && q.candidate != q.to && q.to in h.ids
  {
    var n := c.nodes[q.candidate];
    assert NodeOk(c.delivered, h, n);
    assert SentOk(h, n);
  }

  /* ---- Every step keeps the invariant ---- */

  ghost predicate StepOk(c: Cluster, h: History, c': Cluster, h': History) {
    && Inv(c', h') && Extends(h, h')
    && (forall a :: a in h'.acks && a !in h.acks ==>
          a.node in c'.nodes && a.term == c'.nodes[a.node].term)
  }

  lemma OthersStanding(c: Cluster, h: History, h': History, i: Id, candidate: Id)
    requires Inv(c, h) && Extends(h, h') && NewVotesFor(h, h', candidate)
    ensures forall j :: j in c.nodes && j != candidate ==> CandidacyOk(h', c.nodes[j])
  {
    forall j | j in c.nodes && j != candidate
      ensures CandidacyOk(h', c.nodes[j])
    {
      assert NodeOk(c.delivered, h, c.nodes[j]);
      assert CandidacyOk(h, c.nodes[j]);
      OthersStand(h, h', c.nodes[j], candidate);
    }
  }

  /** A step of node `n.id` that left it as `n`, with the history as `h'` and perhaps one more reply. */
  lemma InstallStep(c: Cluster, h: History, c': Cluster, h': History, n: Node)
    requires Inv(c, h) && n.id in c.nodes && Evolves(h, h', n)
    requires c'.nodes == c.nodes[n.id := n] && c.delivered <= c'.delivered
    requires NodeOk(c'.delivered, h', n)
    requires forall j :: j in c.nodes && j != n.id ==> CandidacyOk(h', c.nodes[j])
    requires c'.voteReplies >= c.voteReplies && forall r :: r in c'.voteReplies && r !in c.voteReplies ==> VoteReplyOk(h', r)
    requires c'.appendReplies >= c.appendReplies
             && forall r :: r in c'.appendReplies && r !in c.appendReplies ==> AppendReplyOk(h', r)
    ensures StepOk(c, h, c', h')
  {
    hide HistoryOk, NodeOk;
    RepliesGrow(c, h, h');
    Install(c.nodes, c.delivered, c'.delivered, h, h', n);
  }

  lemma TimeoutStep(c: Cluster, h: History, i: Id) returns (h': History)
    requires Inv(c, h) && i in c.nodes
    ensures StepOk(c, h, After(c, ElectionTimeout(i)), h')
  {
    hide NodeOk, HistoryOk;
    AtNode(c, h, i);
    h' := StartElectionOk(c.delivered, h, c.nodes[i]);
    OthersStanding(c, h, h', i, i);
    TimeoutKeepsId(c.nodes[i]);
    InstallStep(c, h, After(c, ElectionTimeout(i)), h', OnElectionTimeout(c.nodes[i]));
  }

  lemma TimeoutKeepsId(n: Node)
    ensures OnElectionTimeout(n).id == n.id
  {
    hide OnElectionTimeout;
    TimeoutFrame(n);
  }

  /** A step that adds no votes to the history. */
  lemma QuietStep(c: Cluster, h: History, c': Cluster, h': History, n: Node)
    requires Inv(c, h) && n.id in c.nodes && Evolves(h, h', n) && h'.votes == h.votes
    requires c'.nodes == c.nodes[n.id := n] && c.delivered <= c'.delivered
    requires NodeOk(c'.delivered, h', n)
    requires c'.voteReplies == c.voteReplies && c'.appendReplies >= c.appendReplies
             && forall r :: r in c'.appendReplies && r !in c.appendReplies ==> AppendReplyOk(h', r)
    ensures StepOk(c, h, c', h')
  {
    hide NodeOk, HistoryOk;
    forall j | j in c.nodes && j != n.id
      ensures CandidacyOk(h', c.nodes[j])
    {
      AtNode(c, h, j);
      SameVotes(c.delivered, h, h', c.nodes[j]);
    }
    InstallStep(c, h, c', h', n);
  }

  lemma SameVotes(delivered: set<(Id, nat, Id)>, h: History, h': History, n: Node)
    requires NodeOk(delivered, h, n) && h'.votes == h.votes
    ensures CandidacyOk(h', n)
  {
    assert CandidacyOk(h, n);
  }

  lemma HeartbeatStep(c: Cluster, h: History, i: Id)
    requires Inv(c, h) && i in c.nodes && CursorsInRange(c.nodes[i])
    ensures StepOk(c, h, After(c, Heartbeat(i)), h)
  {
    hide NodeOk, HistoryOk;
    AtNode(c, h, i);
    ReplicateToAllOk(c.delivered, h, c.nodes[i]);
    EvolvesItself(h, ReplicateToAll(c.nodes[i]));
    QuietStep(c, h, After(c, Heartbeat(i)), h, ReplicateToAll(c.nodes[i]));
  }

  lemma VoteRequestStep(c: Cluster, h: History, q: VoteRequest) returns (h': History)
    requires Inv(c, h) && Enabled(c, DeliverVoteRequest(q))
    ensures StepOk(c, h, After(c, DeliverVoteRequest(q)), h')
  {
    hide NodeOk, HistoryOk;
    AtNode(c, h, q.to);
    AtNode(c, h, q.candidate);
    SentVoteRequest(c, h, q);
    var n := c.nodes[q.to];
    h' := HandleVoteRequestOk(c.delivered, h, n, q);
    OthersStanding(c, h, h', q.to, q.candidate);
    SentCandidacy(c.delivered, h, c.nodes[q.candidate]);
    VoteDescribesCandidate(h, h', c.nodes[q.candidate], q);
    InstallStep(c, h, After(c, DeliverVoteRequest(q)), h', HandleVoteRequest(n, q).0);
  }

  lemma SentCandidacy(delivered: set<(Id, nat, Id)>, h: History, n: Node)
    requires NodeOk(delivered, h, n)
    ensures CandidacyOk(h, n)
  {
  }

  lemma VoteReplyStep(c: Cluster, h: History, v: VoteReply) returns (h': History)
    requires Inv(c, h) && Enabled(c, DeliverVoteReply(v))
    ensures StepOk(c, h, After(c, DeliverVoteReply(v)), h')
  {
    hide NodeOk, HistoryOk;
    AtNode(c, h, v.to);
    var n := c.nodes[v.to];
    h' := OnVoteReplyOk(c.delivered, h, n, v);
    QuietStep(c, h, After(c, DeliverVoteReply(v)), h', OnVoteReply(n, v));
  }

  lemma AppendStep(c: Cluster, h: History, m: AppendRequest) returns (h': History)
    requires Inv(c, h) && Enabled(c, DeliverAppend(m)) && Defined(c, DeliverAppend(m))
    ensures StepOk(c, h, After(c, DeliverAppend(m)), h')
  {
    hide NodeOk, HistoryOk;
    AtNode(c, h, m.to);
    AtNode(c, h, m.leader);
    SentAppend(c, h, m);
    var n := c.nodes[m.to];
    h' := HandleAppendOk(c.delivered, h, n, m);
    AppendKeepsId(n, m);
    QuietStep(c, h, After(c, DeliverAppend(m)), h', HandleAppend(n, m).0);
  }

  lemma AppendKeepsId(n: Node, m: AppendRequest)
    requires KeepsCommitted(n, m)
    ensures HandleAppend(n, m).0.id == n.id
  {
    if Accepts(n, m) {
      AcceptFrame(n, m);
    }
  }

  lemma AppendReplyStep(c: Cluster, h: History, r: AppendReply)
    requires Inv(c, h) && Enabled(c, DeliverAppendReply(r)) && Defined(c, DeliverAppendReply(r))
    ensures StepOk(c, h, After(c, DeliverAppendReply(r)), h)
  {
    hide NodeOk, HistoryOk;
    AtNode(c, h, r.to);
    var n := c.nodes[r.to];
    OnAppendReplyOk(c.delivered, h, n, r);
    AppendReplyKeepsId(n, r);
    EvolvesItself(h, OnAppendReply(n, r));
    QuietStep(c, h, After(c, DeliverAppendReply(r)), h, OnAppendReply(n, r));
  }

  lemma AppendReplyKeepsId(n: Node, r: AppendReply)
    requires ReplyInRange(n, r)
    ensures OnAppendReply(n, r).id == n.id
  {
    if r.term <= n.term && n.status == Leader && n.term == r.roundTerm && r.success {
      var n0 := n.(inFlight := n.inFlight - {r.from});
      SettleFrame(Acknowledge(n0, r.from, r.prevIndex + r.sentCount));
    }
  }

  lemma FailureStep(c: Cluster, h: History, i: Id, p: Id)
    requires Inv(c, h) && i in c.nodes
    ensures StepOk(c, h, After(c, AppendFailed(i, p)), h)
  {
    hide NodeOk, HistoryOk;
    AtNode(c, h, i);
    var n := c.nodes[i];
    Basics(c.delivered, h, n);
    Cosmetic(c.delivered, h, n, OnAppendFailure(n, p));
    EvolvesItself(h, OnAppendFailure(n, p));
    QuietStep(c, h, After(c, AppendFailed(i, p)), h, OnAppendFailure(n, p));
  }

  lemma CommandStep(c: Cluster, h: History, i: Id, command: Command) returns (h': History)
    requires Inv(c, h) && Enabled(c, ClientCommand(i, command)) && Defined(c, ClientCommand(i, command))
    ensures StepOk(c, h, After(c, ClientCommand(i, command)), h')
  {
    hide NodeOk, HistoryOk;
    AtNode(c, h, i);
    var n := c.nodes[i];
    h' := SubmitOk(c.delivered, h, n, command);
    SubmitKeepsId(n, command);
    QuietStep(c, h, After(c, ClientCommand(i, command)), h', Submit(n, command));
  }

  lemma SubmitKeepsId(n: Node, command: Command)
    requires CursorsInRange(n) && n.commit <= |n.log|
    ensures Submit(n, command).id == n.id
  {
    if n.status == Leader {
      SettleFrame(ReplicateToAll(Enqueue(n, command)));
    }
  }

  /** Every step from a cluster satisfying the invariant leads to one that does, with a longer history. */
  lemma StepKeepsInv(c: Cluster, h: History, s: Step, c': Cluster) returns (h': History)
    requires Inv(c, h) && Next(c, s, c')
    ensures StepOk(c, h, c', h')
  {
    hide Inv, StepOk;
    EveryStepDefined(c, h, s);
    match s
    case ElectionTimeout(i) => h' := TimeoutStep(c, h, i);
    case Heartbeat(i) => h' := h; HeartbeatStep(c, h, i);
    case DeliverVoteRequest(q) => h' := VoteRequestStep(c, h, q);
    case DeliverVoteReply(v) => h' := VoteReplyStep(c, h, v);
    case DeliverAppend(m) => h' := AppendStep(c, h, m);
    case DeliverAppendReply(r) => h' := h; AppendReplyStep(c, h, r);
    case AppendFailed(i, p) => h' := h; FailureStep(c, h, i, p);
    case ClientCommand(i, command) => h' := CommandStep(c, h, i, command);
  }

  /** The invariant holds at the start, with nothing in the history. */
  lemma InitialInv(ids: set<Id>)
    ensures Inv(InitialCluster(ids), History(ids, map[], map[], {}, map[]))
  {
    var c, h := InitialCluster(ids), History(ids, map[], map[], {}, map[]);
    forall i | i in ids
      ensures c.nodes[i].id == i && NodeOk({}, h, c.nodes[i])
    {
      InitialNode(h, i);
    }
  }

  lemma InitialNode(h: History, i: Id)
    requires i in h.ids && h == History(h.ids, map[], map[], {}, map[])
    ensures NodeOk({}, h, Initial(i, h.ids - {i}))
  {
  }
}
