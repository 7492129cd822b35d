/**
 The cluster and the invariant of its runs. Requests stay in their sender's outbox and
 replies in the cluster forever, so they may be lost, delayed, reordered or repeated;
 only a vote reply is delivered at most once per candidate, term and voter.
 */
module RaftInvariant {
  import opened Wrappers
  import opened KeyValue
  import opened RaftLog
  import opened RaftProtocol
  import opened RaftHistory
  import opened RaftGrowth

  datatype Cluster = Cluster(
    nodes: map<Id, Node>,
    voteReplies: set<VoteReply>,
    appendReplies: set<AppendReply>,
    delivered: set<(Id, nat, Id)>)

  /* ---- One node on its own ---- */

  ghost predicate LocalOk(n: Node) {
    && n.id !in n.peers
    && n.applied <= n.commit <= |n.log|
    && n.values == Replay(n.log[..n.applied])
    && CursorsInRange(n)
    && (n.status == Leader ==> n.nextIndex.Keys == n.matchIndex.Keys == n.peers && !n.timerArmed)
  }

  function AnswerIndex(r: CommandResult): nat {
    match r
    case Committed(i, _, _) => i
    case Failed(i, _) => i
    case NotLeader => 0
  }

  ghost predicate OwnEntry(h: History, n: Node, index: nat) {
    && 1 <= index <= |n.log|
    && n.log[index - 1].term in h.elections
    && h.elections[n.log[index - 1].term].leader == n.id
  }

  /** The result is that of applying the client's own entry after the entries before it. */
  ghost predicate Truthful(h: History, n: Node, f: Future)
    requires f in n.answered
  {
    var r := n.answered[f];
    r != NotLeader ==>
      var i := AnswerIndex(r);
      && OwnEntry(h, n, i) && i <= n.applied && f < |n.submitted|
      && n.submitted[f] == n.log[i - 1].command
      && r == ResultOf(i, n.submitted[f], Applied(Replay(n.log[..i - 1]), n.submitted[f]).1)
  }

  ghost predicate Waiting(h: History, n: Node, k: nat)
    requires k in n.pending
  {
    && n.applied < k && OwnEntry(h, n, k)
    && n.pending[k] < |n.submitted| && n.submitted[n.pending[k]] == n.log[k - 1].command
  }

  ghost predicate WaitersOk(h: History, n: Node) {
    && (n.status != Leader ==> n.pending == map[])
    && (forall k :: k in n.pending ==> Waiting(h, n, k))
    && (forall j, k :: j in n.pending && k in n.pending && n.pending[j] == n.pending[k] ==> j == k)
  }

  ghost predicate AnswersOk(h: History, n: Node) {
    && (forall f :: f in n.answered ==> f < |n.submitted| && Truthful(h, n, f))
    && (forall f, g :: f in n.answered && g in n.answered && AnswerIndex(n.answered[f]) == AnswerIndex(n.answered[g]) != 0
          ==> f == g)
  }

  /** Every future handed out is either answered or waiting, and never both. */
  ghost predicate AccountedFor(n: Node) {
    && (forall k :: k in n.pending ==> n.pending[k] !in n.answered)
    && (forall f: nat :: f < |n.submitted| ==> f in n.answered || f in n.pending.Values)
  }

  ghost predicate ClientsOk(h: History, n: Node) {
    WaitersOk(h, n) && AnswersOk(h, n) && AccountedFor(n)
  }

  /* ---- One node against the history ---- */

  ghost predicate TermsOk(h: History, n: Node) {
    && Grounded(h, n.log) && Ascending(n.log)
    && (forall k :: 0 <= k < |n.log| ==> n.log[k].term <= n.term)
    && (n.status == Candidate ==> forall k :: 0 <= k < |n.log| ==> n.log[k].term < n.term)
  }

  ghost predicate OfficeOk(h: History, n: Node) {
    && (forall t :: t in h.elections && h.elections[t].leader == n.id ==>
          t <= n.term && (t == n.term ==> n.status == Leader && n.log == h.elections[t].log))
    && (n.status == Leader ==> n.term in h.elections && h.elections[n.term].leader == n.id)
  }

  ghost predicate VotingOk(h: History, n: Node) {
    && (forall t, v :: (t, v) in h.votes && v == n.id ==>
          t <= n.term && (t == n.term ==> n.votedFor == Some(h.votes[(t, v)].candidate)))
    && (n.votedFor.Some? ==> (n.term, n.id) in h.votes)
    && (n.status != Follower ==> n.votedFor == Some(n.id))
  }

  /** A vote request or vote for a candidacy that is still on describes the candidate's log. */
  ghost predicate Describes(n: Node, t: nat, lastIndex: nat, lastTerm: nat) {
    t <= n.term && (t == n.term && n.status == Candidate ==> lastIndex == |n.log| && lastTerm == LastTerm(n.log))
  }

  ghost predicate CandidacyOk(h: History, n: Node) {
    forall t, v :: (t, v) in h.votes && h.votes[(t, v)].candidate == n.id ==>
      Describes(n, t, h.votes[(t, v)].lastIndex, h.votes[(t, v)].lastTerm)
  }

  ghost predicate Backs(h: History, t: nat, v: Id, candidate: Id) {
    (t, v) in h.votes && h.votes[(t, v)].candidate == candidate
  }

  ghost predicate CountOk(delivered: set<(Id, nat, Id)>, h: History, n: Node) {
    n.status == Candidate ==>
      && n.id in h.counted && n.id in h.counted[n.id] && h.counted[n.id] <= h.ids
      && n.votes == |h.counted[n.id]|
      && (forall v :: v in h.counted[n.id] ==>
            Backs(h, n.term, v, n.id) && (v != n.id ==> (n.id, n.term, v) in delivered))
  }

  ghost predicate AcksOk(h: History, n: Node) {
    forall a :: a in h.acks && a.node == n.id ==> a.term <= n.term && Kept(h, n.log, a.term, a.upto, n.term)
  }

  ghost predicate VoteRequestOk(n: Node, q: VoteRequest) {
    q.candidate == n.id && q.to in n.peers && Describes(n, q.term, q.lastLogIndex, q.lastLogTerm)
  }

  ghost predicate AppendRequestOk(h: History, m: AppendRequest) {
    && m.term in h.elections && h.elections[m.term].leader == m.leader
    && var l := h.elections[m.term].log;
    && m.prevIndex + |m.entries| <= |l|
    && m.entries == l[m.prevIndex..m.prevIndex + |m.entries|]
    && m.prevTerm == TermAt(l, m.prevIndex)
    && m.leaderCommit <= m.prevIndex + |m.entries|
    && CommitJustified(h, l, m.leaderCommit, m.term)
  }

  ghost predicate SentOk(h: History, n: Node) {
    && (forall q :: q in n.voteRequests ==> VoteRequestOk(n, q))
    && (forall m :: m in n.appendRequests ==>
          m.leader == n.id && m.to in n.peers && m.term <= n.term && AppendRequestOk(h, m))
  }

  /** While a node leads, `matchIndex[p] = k > 0` means p acknowledged the leader's first k entries in this term. */
  ghost predicate MatchesOk(h: History, n: Node) {
    n.status == Leader ==>
      forall p :: p in n.matchIndex && n.matchIndex[p] > 0 ==> Ack(p, n.term, n.matchIndex[p]) in h.acks
  }

  ghost predicate LogOk(h: History, n: Node) {
    TermsOk(h, n) && AcksOk(h, n) && CommitJustified(h, n.log, n.commit, n.term)
  }

  ghost predicate BallotOk(delivered: set<(Id, nat, Id)>, h: History, n: Node) {
    OfficeOk(h, n) && VotingOk(h, n) && CandidacyOk(h, n) && CountOk(delivered, h, n)
  }

  ghost predicate WireOk(h: History, n: Node) {
    SentOk(h, n) && MatchesOk(h, n)
  }

  ghost predicate RestOk(h: History, n: Node) {
    && n.id in h.ids && n.peers == h.ids - {n.id}
    && LocalOk(n) && ClientsOk(h, n) && LogOk(h, n) && WireOk(h, n)
  }

  ghost predicate NodeOk(delivered: set<(Id, nat, Id)>, h: History, n: Node) {
    RestOk(h, n) && BallotOk(delivered, h, n)
  }

  lemma Parts(delivered: set<(Id, nat, Id)>, h: History, n: Node)
    requires NodeOk(delivered, h, n)
    ensures RestOk(h, n) && BallotOk(delivered, h, n)
    ensures n.id in h.ids && LocalOk(n) && LogOk(h, n) && OfficeOk(h, n) && VotingOk(h, n)
  {
  }

  lemma Joined(delivered: set<(Id, nat, Id)>, h: History, n: Node)
    requires RestOk(h, n) && BallotOk(delivered, h, n)
    ensures NodeOk(delivered, h, n)
  {
  }

  /* ---- The cluster ---- */

  ghost predicate VoteReplyOk(h: History, r: VoteReply) {
    && r.from in h.ids && r.to in h.ids && r.from != r.to
    && (r.granted ==> r.term == r.roundTerm && Backs(h, r.roundTerm, r.from, r.to))
  }

  ghost predicate AppendReplyOk(h: History, r: AppendReply) {
    && r.from in h.ids && r.to in h.ids && r.from != r.to
    && (r.success ==> Ack(r.from, r.roundTerm, r.prevIndex + r.sentCount) in h.acks)
  }

  ghost predicate RepliesOk(c: Cluster, h: History) {
    && (forall r :: r in c.voteReplies ==> VoteReplyOk(h, r))
    && (forall r :: r in c.appendReplies ==> AppendReplyOk(h, r))
  }

  ghost predicate NodesOk(nodes: map<Id, Node>, delivered: set<(Id, nat, Id)>, h: History) {
    nodes.Keys == h.ids && forall i :: i in nodes ==> nodes[i].id == i && NodeOk(delivered, h, nodes[i])
  }

  ghost predicate Inv(c: Cluster, h: History) {
    HistoryOk(h) && NodesOk(c.nodes, c.delivered, h) && RepliesOk(c, h)
  }

  /* ---- A step of one node leaves the others' part of the invariant standing ---- */

  /** Everything `h'` adds to `h` is about node `i`. */
  ghost predicate OnlyAbout(h: History, h': History, i: Id) {
    && (forall t :: t in h'.elections && !SameElection(h, h', t) ==> h'.elections[t].leader == i)
    && (forall t, v :: (t, v) in h'.votes && (t, v) !in h.votes ==> v == i)
    && (forall a :: a in h'.acks && a !in h.acks ==> a.node == i)
    && h.counted.Keys <= h'.counted.Keys
    && (forall j :: j in h'.counted && j != i ==> j in h.counted && h'.counted[j] == h.counted[j])
  }

  lemma WaitingGrows(h: History, h': History, n: Node, k: nat)
    requires Extends(h, h') && k in n.pending && Waiting(h, n, k)
    ensures Waiting(h', n, k)
  {
    assert ElectionExtends(h.elections[n.log[k - 1].term], h'.elections[n.log[k - 1].term]);
  }

  lemma ClientsGrow(h: History, h': History, n: Node)
    requires Extends(h, h') && ClientsOk(h, n)
    ensures ClientsOk(h', n)
  {
    forall k | k in n.pending
      ensures Waiting(h', n, k)
    {
      WaitingGrows(h, h', n, k);
    }
    forall f | f in n.answered
      ensures Truthful(h', n, f)
    {
      assert Truthful(h, n, f);
      if n.answered[f] != NotLeader {
        var t := n.log[AnswerIndex(n.answered[f]) - 1].term;
        assert ElectionExtends(h.elections[t], h'.elections[t]);
      }
    }
  }

  lemma PrefixSlice(log: Log, n: nat, from: nat, to: nat)
    requires from <= to <= n <= |log|
    ensures log[..n][from..to] == log[from..to]
  {
    var prefix := log[..n];
    assert forall i :: from <= i < to ==> prefix[i] == log[i];
    assert prefix[from..to] == log[from..to];
  }

  lemma AppendRequestGrows(h: History, h': History, m: AppendRequest)
    requires Extends(h, h') && AppendRequestOk(h, m)
    ensures AppendRequestOk(h', m)
  {
    var l, l' := h.elections[m.term].log, h'.elections[m.term].log;
    assert ElectionExtends(h.elections[m.term], h'.elections[m.term]);
    var end := m.prevIndex + |m.entries|;
    PrefixSlice(l', |l|, m.prevIndex, end);
    assert m.prevIndex > 0 ==> l'[m.prevIndex - 1] == l'[..|l|][m.prevIndex - 1];
    assert l'[..m.leaderCommit] == l'[..|l|][..m.leaderCommit];
    CommitGrows(h, h', l, m.leaderCommit, m.term, l', m.term);
  }

  lemma SentGrows(h: History, h': History, n: Node)
    requires Extends(h, h') && SentOk(h, n)
    ensures SentOk(h', n)
  {
    forall m | m in n.appendRequests
      ensures AppendRequestOk(h', m)
    {
      AppendRequestGrows(h, h', m);
    }
  }

  lemma AcksGrow(h: History, h': History, n: Node, i: Id)
    requires Extends(h, h') && OnlyAbout(h, h', i) && n.id != i && AcksOk(h, n)
    ensures AcksOk(h', n)
  {
    forall a | a in h'.acks && a.node == n.id
      ensures a.term <= n.term && Kept(h', n.log, a.term, a.upto, n.term)
    {
      KeptGrows(h, h', n.log, a.term, a.upto, n.term, n.term);
    }
  }

  lemma OfficeGrows(h: History, h': History, n: Node, i: Id)
    requires Extends(h, h') && OnlyAbout(h, h', i) && n.id != i && OfficeOk(h, n)
    ensures OfficeOk(h', n)
  {
    forall t | t in h'.elections && h'.elections[t].leader == n.id
      ensures SameElection(h, h', t)
    {
    }
    assert n.status == Leader ==> ElectionExtends(h.elections[n.term], h'.elections[n.term]);
  }

  lemma BystanderKeeps(
    delivered: set<(Id, nat, Id)>, delivered': set<(Id, nat, Id)>, h: History, h': History, n: Node, i: Id)
    requires NodeOk(delivered, h, n) && n.id != i
    requires Extends(h, h') && OnlyAbout(h, h', i) && delivered <= delivered'
    requires CandidacyOk(h', n)
    ensures NodeOk(delivered', h', n)
  {
    ClientsGrow(h, h', n);
    GroundedGrows(h, h', n.log);
    OfficeGrows(h, h', n, i);
    AcksGrow(h, h', n, i);
    SentGrows(h, h', n);
    CommitGrows(h, h', n.log, n.commit, n.term, n.log, n.term);
  }

  lemma RepliesGrow(c: Cluster, h: History, h': History)
    requires Extends(h, h') && RepliesOk(c, h)
    ensures RepliesOk(c, h')
  {
  }

  /** The nodes after one of them has become `n` and the history `h'`. */
  lemma Install(
    nodes: map<Id, Node>, delivered: set<(Id, nat, Id)>, delivered': set<(Id, nat, Id)>, h: History, h': History, n: Node)
    requires NodesOk(nodes, delivered, h) && n.id in nodes
    requires Extends(h, h') && OnlyAbout(h, h', n.id) && delivered <= delivered'
    requires NodeOk(delivered', h', n)
    requires forall j :: j in nodes && j != n.id ==> CandidacyOk(h', nodes[j])
    ensures NodesOk(nodes[n.id := n], delivered', h')
  {
    forall j | j in nodes && j != n.id
      ensures NodeOk(delivered', h', nodes[j])
    {
      BystanderKeeps(delivered, delivered', h, h', nodes[j], n.id);
    }
  }
}
