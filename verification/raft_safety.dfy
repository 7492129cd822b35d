/** The Raft guarantees, over every run of every cluster. */
module RaftSafety {
  import opened KeyValue
  import opened RaftLog
  import opened RaftProtocol
  import opened RaftHistory
  import opened RaftGrowth
  import opened RaftInvariant
  import opened RaftElections
  import opened RaftReplication
  import opened RaftHandlers
  import opened RaftCluster
  import opened RaftProgress

  /** A run: the clusters passed through, from the initial one, and the steps between them. */
  ghost predicate Run(ids: set<Id>, trace: seq<Cluster>, steps: seq<Step>) {
    && |trace| == |steps| + 1
    && trace[0] == InitialCluster(ids)
    && forall k: nat :: k < |steps| ==> Next(trace[k], steps[k], trace[k + 1])
  }

  ghost predicate InvThroughout(ids: set<Id>, trace: seq<Cluster>, hs: seq<History>) {
    |hs| == |trace| && forall k: nat :: k < |hs| ==> hs[k].ids == ids && Inv(trace[k], hs[k])
  }

  ghost predicate Growing(hs: seq<History>) {
    forall j: nat, k: nat :: j <= k < |hs| ==> Extends(hs[j], hs[k])
  }

  /** At moment j the acknowledging node was in the term and held what it acknowledged. */
  ghost predicate HeldAt(trace: seq<Cluster>, hs: seq<History>, j: nat, a: Ack) {
    && j < |trace| && j < |hs|
    && a.node in trace[j].nodes && trace[j].nodes[a.node].term == a.term
    && a.term in hs[j].elections && Retains(trace[j].nodes[a.node].log, hs[j].elections[a.term].log, a.upto)
  }

  ghost predicate OnceHeld(trace: seq<Cluster>, hs: seq<History>, k: nat, a: Ack) {
    exists j: nat :: j <= k && HeldAt(trace, hs, j, a)
  }

  ghost predicate AcksHeld(trace: seq<Cluster>, hs: seq<History>) {
    forall k: nat, a :: k < |hs| && a in hs[k].acks ==> OnceHeld(trace, hs, k, a)
  }

  /** One history per cluster of a run, each extending the one before. */
  ghost predicate Chronicle(ids: set<Id>, trace: seq<Cluster>, hs: seq<History>) {
    InvThroughout(ids, trace, hs) && Growing(hs) && AcksHeld(trace, hs)
  }

  lemma {:induction false} RunHasChronicle(ids: set<Id>, trace: seq<Cluster>, steps: seq<Step>) returns (hs: seq<History>)
    requires Run(ids, trace, steps)
    ensures Chronicle(ids, trace, hs)
    decreases |steps|
  {
    hide Inv, StepOk, HeldAt;
    if steps == [] {
      InitialInv(ids);
      hs := [History(ids, map[], map[], {}, map[])];
      ExtendsItself(hs[0]);
    } else {
      var last := |steps| - 1;
      assert Next(trace[last], steps[last], trace[last + 1]);
      var earlier := trace[..|trace| - 1];
      assert Run(ids, earlier, steps[..last]) by {
        forall k: nat | k < last
          ensures Next(earlier[k], steps[..last][k], earlier[k + 1])
        {
          assert Next(trace[k], steps[k], trace[k + 1]);
        }
      }
      var before := RunHasChronicle(ids, earlier, steps[..last]);
      var h := StepKeepsInv(earlier[last], before[last], steps[last], trace[last + 1]);
      ChronicleGrows(ids, trace, before, h);
      hs := before + [h];
    }
  }

  lemma StepFacts(c: Cluster, h: History, c': Cluster, h': History)
    requires Inv(c, h) && StepOk(c, h, c', h')
    ensures Inv(c', h') && Extends(h, h') && h'.ids == h.ids
  {
  }

  lemma ChronicleGrows(ids: set<Id>, trace: seq<Cluster>, before: seq<History>, h: History)
    requires |trace| > 1 && Chronicle(ids, trace[..|trace| - 1], before)
    requires StepOk(trace[|trace| - 2], before[|before| - 1], trace[|trace| - 1], h)
    ensures Chronicle(ids, trace, before + [h])
  {
    hide Inv, StepOk, Extends, HeldAt;
    var last := |before| - 1;
    StepFacts(trace[last], before[last], trace[last + 1], h);
    HistoriesGrow(before, h);
    forall k: nat, a | k < |before + [h]| && a in (before + [h])[k].acks
      ensures OnceHeld(trace, before + [h], k, a)
    {
      if k <= last {
        OnceHeldLater(trace, before, h, k, k, a);
      } else if a in before[last].acks {
        OnceHeldLater(trace, before, h, last, k, a);
      } else {
        FreshAckHeld(trace[last], before[last], trace[last + 1], h, a);
        HeldNow(trace, before + [h], k, a);
      }
    }
  }

  lemma HistoriesGrow(before: seq<History>, h: History)
    requires Growing(before) && |before| > 0 && Extends(before[|before| - 1], h)
    ensures Growing(before + [h])
  {
    hide Extends;
    var hs, last := before + [h], |before| - 1;
    forall j: nat, k: nat | j <= k < |hs|
      ensures Extends(hs[j], hs[k])
    {
      if j == k {
        ExtendsItself(hs[j]);
      } else if k == last + 1 {
        ExtendsTwice(hs[j], before[last], h);
      }
    }
  }

  lemma OnceHeldLater(trace: seq<Cluster>, before: seq<History>, h: History, k: nat, k': nat, a: Ack)
    requires |trace| > 1 && OnceHeld(trace[..|trace| - 1], before, k, a) && k <= k'
    ensures OnceHeld(trace, before + [h], k', a)
  {
    var j: nat :| j <= k && HeldAt(trace[..|trace| - 1], before, j, a);
    assert HeldAt(trace, before + [h], j, a);
  }

  lemma HeldNow(trace: seq<Cluster>, hs: seq<History>, k: nat, a: Ack)
    requires k < |trace| && k < |hs|
    requires a.node in trace[k].nodes && trace[k].nodes[a.node].term == a.term
    requires a.term in hs[k].elections && Retains(trace[k].nodes[a.node].log, hs[k].elections[a.term].log, a.upto)
    ensures OnceHeld(trace, hs, k, a)
  {
    assert HeldAt(trace, hs, k, a);
  }

  /** A step's new acknowledgements describe what their node holds after it. */
  lemma FreshAckHeld(c: Cluster, h: History, c': Cluster, h': History, a: Ack)
    requires StepOk(c, h, c', h') && a in h'.acks && a !in h.acks
    ensures a.node in c'.nodes && a.term == c'.nodes[a.node].term
    ensures a.term in h'.elections && Retains(c'.nodes[a.node].log, h'.elections[a.term].log, a.upto)
  {
    hide HistoryOk, RestOk;
    AtNode(c', h', a.node);
    var n := c'.nodes[a.node];
    assert Kept(h', n.log, a.term, a.upto, n.term);
    assert KeptAt(h', n.log, a.term, a.upto, n.term);
  }

  /* ---- Nodes at moments of a run ---- */

  ghost predicate At(trace: seq<Cluster>, k: nat, i: Id) {
    k < |trace| && i in trace[k].nodes
  }

  lemma NodeFacts(ids: set<Id>, trace: seq<Cluster>, hs: seq<History>, k: nat, i: Id)
    requires InvThroughout(ids, trace, hs) && At(trace, k, i)
    ensures HistoryOk(hs[k]) && NodeOk(trace[k].delivered, hs[k], trace[k].nodes[i]) && trace[k].nodes[i].id == i
    ensures LocalOk(trace[k].nodes[i]) && LogOk(hs[k], trace[k].nodes[i]) && OfficeOk(hs[k], trace[k].nodes[i])
    ensures ClientsOk(hs[k], trace[k].nodes[i]) && WireOk(hs[k], trace[k].nodes[i])
  {
  }

  lemma LaterHistory(hs: seq<History>, j: nat, k: nat) returns (l: nat)
    requires Growing(hs) && j < |hs| && k < |hs|
    ensures l < |hs| && l == Max(j, k) && Extends(hs[j], hs[l]) && Extends(hs[k], hs[l])
  {
    l := if j >= k then j else k;
  }

  /* ---- The theorems ---- */

  /** Election Safety: at most one node ever leads in a term. */
  lemma ElectionSafety(ids: set<Id>, trace: seq<Cluster>, steps: seq<Step>, j: nat, k: nat, a: Id, b: Id)
    requires Run(ids, trace, steps) && At(trace, j, a) && At(trace, k, b)
    requires trace[j].nodes[a].status == Leader && trace[k].nodes[b].status == Leader
    requires trace[j].nodes[a].term == trace[k].nodes[b].term
    ensures a == b
  {
    hide HistoryOk, NodeOk, Run, Next, Inv;
    var hs := RunHasChronicle(ids, trace, steps);
    NodeFacts(ids, trace, hs, j, a);
    NodeFacts(ids, trace, hs, k, b);
    var l := LaterHistory(hs, j, k);
    var t := trace[j].nodes[a].term;
    assert ElectionExtends(hs[j].elections[t], hs[l].elections[t]);
    assert ElectionExtends(hs[k].elections[t], hs[l].elections[t]);
  }

  /** Log Matching: two logs of a run with equal terms at an index are equal up to it. */
  lemma LogMatching(ids: set<Id>, trace: seq<Cluster>, steps: seq<Step>, j: nat, k: nat, a: Id, b: Id, i: nat)
    requires Run(ids, trace, steps) && At(trace, j, a) && At(trace, k, b)
    requires i < |trace[j].nodes[a].log| && i < |trace[k].nodes[b].log|
    requires trace[j].nodes[a].log[i].term == trace[k].nodes[b].log[i].term
    ensures trace[j].nodes[a].log[..i + 1] == trace[k].nodes[b].log[..i + 1]
  {
    hide HistoryOk, NodeOk, Run, Next, Inv;
    var hs := RunHasChronicle(ids, trace, steps);
    NodeFacts(ids, trace, hs, j, a);
    NodeFacts(ids, trace, hs, k, b);
    var l := LaterHistory(hs, j, k);
    GroundedGrows(hs[j], hs[l], trace[j].nodes[a].log);
    GroundedGrows(hs[k], hs[l], trace[k].nodes[b].log);
    GroundedLogsMatch(hs[l], trace[j].nodes[a].log, trace[k].nodes[b].log, i);
  }

  /** Log Matching for requests: an entry in flight matches any log with its term at its index, and all before it. */
  lemma InFlightMatching(
    ids: set<Id>, trace: seq<Cluster>, steps: seq<Step>, j: nat, k: nat, a: Id, b: Id, m: AppendRequest, i: nat)
    requires Run(ids, trace, steps) && At(trace, j, a) && At(trace, k, b)
    requires m in trace[j].nodes[a].appendRequests && i < |m.entries|
    requires m.prevIndex + i < |trace[k].nodes[b].log|
    requires trace[k].nodes[b].log[m.prevIndex + i].term == m.entries[i].term
    ensures PrevMatches(trace[k].nodes[b].log, m.prevIndex, m.prevTerm)
    ensures trace[k].nodes[b].log[m.prevIndex..m.prevIndex + i + 1] == m.entries[..i + 1]
  {
    hide HistoryOk, NodeOk, Run, Next, Inv, CommitJustified;
    var hs := RunHasChronicle(ids, trace, steps);
    NodeFacts(ids, trace, hs, j, a);
    NodeFacts(ids, trace, hs, k, b);
    var l := LaterHistory(hs, j, k);
    GroundedGrows(hs[k], hs[l], trace[k].nodes[b].log);
    AppendRequestGrows(hs[j], hs[l], m);
    LaterOk(ids, trace, hs, l);
    SliceMatches(hs[l], trace[k].nodes[b].log, m, i);
  }

  /** A request is a slice of its leader's log, so an entry of equal term in a log brings the slice up to it along. */
  lemma SliceMatches(h: History, log: Log, m: AppendRequest, i: nat)
    requires HistoryOk(h) && Grounded(h, log) && AppendRequestOk(h, m)
    requires i < |m.entries| && m.prevIndex + i < |log| && log[m.prevIndex + i].term == m.entries[i].term
    ensures PrevMatches(log, m.prevIndex, m.prevTerm)
    ensures log[m.prevIndex..m.prevIndex + i + 1] == m.entries[..i + 1]
  {
    hide HistoryOk, CommitJustified;
    var sent := h.elections[m.term].log;
    LeaderLogGrounded(h, m.term);
    GroundedLogsMatch(h, log, sent, m.prevIndex + i);
    assert m.entries[..i + 1] == sent[..m.prevIndex + i + 1][m.prevIndex..];
    assert m.prevIndex > 0 ==> log[m.prevIndex - 1] == sent[..m.prevIndex + i + 1][m.prevIndex - 1];
  }

  /** Log Matching between requests: two in flight with one term at an index agree wherever both reach up to it. */
  lemma RequestsMatch(
    ids: set<Id>, trace: seq<Cluster>, steps: seq<Step>, j: nat, k: nat, a: Id, b: Id,
    m: AppendRequest, m': AppendRequest, i: nat, i': nat)
    requires Run(ids, trace, steps) && At(trace, j, a) && At(trace, k, b)
    requires m in trace[j].nodes[a].appendRequests && m' in trace[k].nodes[b].appendRequests
    requires i < |m.entries| && i' < |m'.entries| && m.prevIndex + i == m'.prevIndex + i'
    requires m.entries[i].term == m'.entries[i'].term && m'.prevIndex <= m.prevIndex
    ensures m.entries[..i + 1] == m'.entries[m.prevIndex - m'.prevIndex..i' + 1]
    ensures m.prevIndex == m'.prevIndex ==> m.prevTerm == m'.prevTerm
    ensures m.prevIndex > m'.prevIndex ==> m.prevTerm == m'.entries[m.prevIndex - m'.prevIndex - 1].term
  {
    hide HistoryOk, NodeOk, Run, Next, Inv, CommitJustified;
    var hs := RunHasChronicle(ids, trace, steps);
    NodeFacts(ids, trace, hs, j, a);
    NodeFacts(ids, trace, hs, k, b);
    var l := LaterHistory(hs, j, k);
    AppendRequestGrows(hs[j], hs[l], m);
    AppendRequestGrows(hs[k], hs[l], m');
    LaterOk(ids, trace, hs, l);
    SlicesMatch(hs[l], m, m', i, i');
  }

  lemma SlicesMatch(h: History, m: AppendRequest, m': AppendRequest, i: nat, i': nat)
    requires HistoryOk(h) && AppendRequestOk(h, m) && AppendRequestOk(h, m')
    requires i < |m.entries| && i' < |m'.entries| && m.prevIndex + i == m'.prevIndex + i'
    requires m.entries[i].term == m'.entries[i'].term && m'.prevIndex <= m.prevIndex
    ensures m.entries[..i + 1] == m'.entries[m.prevIndex - m'.prevIndex..i' + 1]
    ensures m.prevIndex == m'.prevIndex ==> m.prevTerm == m'.prevTerm
    ensures m.prevIndex > m'.prevIndex ==> m.prevTerm == m'.entries[m.prevIndex - m'.prevIndex - 1].term
  {
    hide HistoryOk, CommitJustified;
    var sent := h.elections[m'.term].log;
    LeaderLogGrounded(h, m'.term);
    SliceMatches(h, sent, m, i);
    assert sent[m.prevIndex..m.prevIndex + i + 1] == m'.entries[m.prevIndex - m'.prevIndex..i' + 1];
  }

  lemma LeaderLogGrounded(h: History, t: nat)
    requires HistoryOk(h) && t in h.elections
    ensures Grounded(h, h.elections[t].log)
  {
    assert ElectionOk(h, t);
  }

  /** Leader Completeness over runs: what a node has committed is in the log of every leader of its term or a later one. */
  lemma CommittedReachesLeaders(
    ids: set<Id>, trace: seq<Cluster>, steps: seq<Step>, j: nat, k: nat, a: Id, b: Id)
    requires Run(ids, trace, steps) && At(trace, j, a) && At(trace, k, b) && j <= k
    requires trace[k].nodes[b].status == Leader && trace[j].nodes[a].term <= trace[k].nodes[b].term
    ensures trace[j].nodes[a].commit <= |trace[j].nodes[a].log|
    ensures Retains(trace[k].nodes[b].log, trace[j].nodes[a].log, trace[j].nodes[a].commit)
  {
    hide HistoryOk, NodeOk, Run, Next, Inv;
    var hs := RunHasChronicle(ids, trace, steps);
    NodeFacts(ids, trace, hs, j, a);
    NodeFacts(ids, trace, hs, k, b);
    var n := trace[j].nodes[a];
    CommitGrows(hs[j], hs[k], n.log, n.commit, n.term, n.log, n.term);
    CommittedInLeaderLog(hs[k], n.log, n.commit, n.term, trace[k].nodes[b].term);
  }

  /** By moment j this node had, in term t, held all of `chosen`. */
  ghost predicate HadInTerm(trace: seq<Cluster>, j: nat, v: Id, t: nat, chosen: Log) {
    exists m: nat :: m <= j && At(trace, m, v) && trace[m].nodes[v].term == t && chosen <= trace[m].nodes[v].log
  }

  /** By moment j `chosen`, which ends with an entry of term t, was on a majority in term t: Raft's rule for committing. */
  ghost predicate Replicated(ids: set<Id>, trace: seq<Cluster>, j: nat, t: nat, chosen: Log) {
    && chosen != [] && chosen[|chosen| - 1].term == t
    && exists quorum: set<Id> ::
         quorum <= ids && |quorum| >= Majority(|ids|) && forall v :: v in quorum ==> HadInTerm(trace, j, v, t, chosen)
  }

  /** Leading a term after t at any moment, or term t itself from moment j on. */
  ghost predicate LeadsAfter(trace: seq<Cluster>, k: nat, b: Id, t: nat, j: nat) {
    && At(trace, k, b) && trace[k].nodes[b].status == Leader
    && (trace[k].nodes[b].term > t || (trace[k].nodes[b].term == t && j <= k))
  }

  /**
   Leader Completeness over runs: a committed entry was, in some term t no later than its observer's, on a majority as part
   of a log ending with an entry of t, and every leader of a term after t, at whatever moment, holds that whole log.
   */
  lemma CommittedInTerm(ids: set<Id>, trace: seq<Cluster>, steps: seq<Step>, j: nat, a: Id, i: nat)
    returns (t: nat, chosen: Log)
    requires Run(ids, trace, steps) && At(trace, j, a) && 0 < i <= trace[j].nodes[a].commit
    ensures t <= trace[j].nodes[a].term && Replicated(ids, trace, j, t, chosen)
    ensures Retains(trace[j].nodes[a].log, chosen, i)
    ensures forall k: nat, b :: LeadsAfter(trace, k, b, t, j) ==> chosen <= trace[k].nodes[b].log
  {
    hide Run, InvThroughout, Growing, AcksHeld, Replicated, Retains;
    var hs := RunHasChronicle(ids, trace, steps);
    var upto: nat;
    t, upto := CommitTerm(ids, trace, hs, j, a, i);
    chosen := hs[j].elections[t].log[..upto];
    ChosenIsReplicated(ids, trace, hs, j, t, upto);
    forall k: nat, b | LeadsAfter(trace, k, b, t, j)
      ensures At(trace, k, b) && chosen <= trace[k].nodes[b].log
    {
      LeaderHoldsChosen(ids, trace, hs, j, t, upto, k, b);
    }
  }

  lemma CommitTerm(ids: set<Id>, trace: seq<Cluster>, hs: seq<History>, j: nat, a: Id, i: nat) returns (t: nat, upto: nat)
    requires InvThroughout(ids, trace, hs) && At(trace, j, a) && 0 < i <= trace[j].nodes[a].commit
    ensures j < |hs| && t <= trace[j].nodes[a].term && Chosen(hs[j], t, upto)
    ensures Retains(trace[j].nodes[a].log, hs[j].elections[t].log[..upto], i)
  {
    hide HistoryOk, NodeOk, Inv, ClientsOk, WireOk, OfficeOk, CommitJustified, Retains, Chosen;
    NodeFacts(ids, trace, hs, j, a);
    var n := trace[j].nodes[a];
    t, upto := JustifiedVia(hs[j], n.log, n.commit, n.term, i);
  }

  lemma JustifiedVia(h: History, log: Log, commit: nat, bound: nat, i: nat) returns (t: nat, upto: nat)
    requires CommitJustified(h, log, commit, bound) && 0 < i <= commit <= |log|
    ensures t <= bound && Chosen(h, t, upto) && Retains(log, h.elections[t].log[..upto], i)
  {
    JustifiedBelow(h, log, commit, i, bound);
    t, upto :| CommitsVia(h, log, i, bound, t, upto);
  }

  lemma ChosenIsReplicated(ids: set<Id>, trace: seq<Cluster>, hs: seq<History>, j: nat, t: nat, upto: nat)
    requires Chronicle(ids, trace, hs) && j < |hs| && Chosen(hs[j], t, upto)
    ensures Replicated(ids, trace, j, t, hs[j].elections[t].log[..upto])
  {
    hide Inv, HadInTerm, AcksHeld, Growing;
    var h, chosen := hs[j], hs[j].elections[t].log[..upto];
    var quorum := Ackers(h, t, upto);
    forall v | v in quorum
      ensures v in ids && HadInTerm(trace, j, v, t, chosen)
    {
      var a :| a in h.acks && a.term == t && a.upto >= upto && a.node == v;
      AckerInIds(ids, trace, hs, j, a);
      AckerHad(ids, trace, hs, j, a, upto);
    }
  }

  lemma AckerHad(ids: set<Id>, trace: seq<Cluster>, hs: seq<History>, j: nat, a: Ack, upto: nat)
    requires Chronicle(ids, trace, hs) && j < |hs| && a in hs[j].acks && a.term in hs[j].elections
    requires upto <= a.upto && upto <= |hs[j].elections[a.term].log|
    ensures HadInTerm(trace, j, a.node, a.term, hs[j].elections[a.term].log[..upto])
  {
    hide Inv;
    assert OnceHeld(trace, hs, j, a);
    var m: nat :| m <= j && HeldAt(trace, hs, m, a);
    var log := trace[m].nodes[a.node].log;
    assert Extends(hs[m], hs[j]);
    RetainsGrows(hs[m], hs[j], log, a.term, a.upto);
    assert hs[j].elections[a.term].log[..upto] == log[..a.upto][..upto];
    assert At(trace, m, a.node);
  }

  lemma AckerInIds(ids: set<Id>, trace: seq<Cluster>, hs: seq<History>, j: nat, a: Ack)
    requires InvThroughout(ids, trace, hs) && j < |hs| && a in hs[j].acks
    ensures a.node in ids
  {
    assert AckOk(hs[j], a);
  }

  lemma LeaderHoldsChosen(ids: set<Id>, trace: seq<Cluster>, hs: seq<History>, j: nat, t: nat, upto: nat, k: nat, b: Id)
    requires Chronicle(ids, trace, hs) && j < |hs| && Chosen(hs[j], t, upto) && LeadsAfter(trace, k, b, t, j)
    ensures At(trace, k, b) && hs[j].elections[t].log[..upto] <= trace[k].nodes[b].log
  {
    hide HistoryOk, NodeOk, Inv, ClientsOk, WireOk, LogOk, AcksHeld, Extends, LocalOk;
    NodeFacts(ids, trace, hs, k, b);
    var l := LaterHistory(hs, j, k);
    LaterOk(ids, trace, hs, l);
    if trace[k].nodes[b].term > t {
      LaterLeaderHolds(hs[j], hs[k], hs[l], t, upto, trace[k].nodes[b].term);
    } else {
      assert Extends(hs[j], hs[k]);
      LeaderLogGrows(hs[j], hs[k], t);
    }
  }

  lemma LeaderLogGrows(h: History, h': History, t: nat)
    requires Extends(h, h') && t in h.elections
    ensures t in h'.elections && h.elections[t].log <= h'.elections[t].log && h.elections[t].base == h'.elections[t].base
  {
    assert ElectionExtends(h.elections[t], h'.elections[t]);
  }

  /** What was chosen by one moment is in the log a later term's leader has at another. */
  lemma LaterLeaderHolds(h: History, h': History, last: History, t: nat, upto: nat, t': nat)
    requires Extends(h, last) && Extends(h', last) && HistoryOk(h') && HistoryOk(last)
    requires Chosen(h, t, upto) && t' in h'.elections && t < t'
    ensures h.elections[t].log[..upto] <= h'.elections[t'].log
  {
    hide HistoryOk, Extends;
    LeaderLogGrows(h, last, t);
    LeaderLogGrows(h', last, t');
    ChosenGrows(h, last, t, upto);
    LeaderCompleteness(last, t, upto, t');
    BaseHeld(h', t');
    assert h'.elections[t'].log[..upto] == last.elections[t'].log[..upto];
  }

  lemma BaseHeld(h: History, t: nat)
    requires HistoryOk(h) && t in h.elections
    ensures h.elections[t].base <= |h.elections[t].log|
  {
    assert ElectionOk(h, t);
  }

  /** Two committed prefixes in one history agree. */
  lemma CommittedPrefixesAgree(h: History, x: Log, y: Log, k: nat, boundX: nat, boundY: nat)
    requires HistoryOk(h) && CommitJustified(h, x, k, boundX) && k <= |x|
    requires CommitJustified(h, y, k, boundY) && k <= |y|
    ensures x[..k] == y[..k]
  {
    if k > 0 {
      var t: nat, i: nat :| CommitsVia(h, x, k, boundX, t, i);
      var u: nat, i': nat :| CommitsVia(h, y, k, boundY, u, i');
      if t <= u {
        assert CommitsVia(h, x, k, u, t, i);
        CommittedInLeaderLog(h, x, k, u, u);
      } else {
        assert CommitsVia(h, y, k, t, u, i');
        CommittedInLeaderLog(h, y, k, t, t);
      }
    }
  }

  lemma JustifiedBelow(h: History, x: Log, k: nat, k': nat, bound: nat)
    requires CommitJustified(h, x, k, bound) && k' <= k <= |x|
    ensures CommitJustified(h, x, k', bound)
  {
    if k' > 0 {
      var t: nat, i: nat :| CommitsVia(h, x, k, bound, t, i);
      var l := h.elections[t].log;
      assert x[..k'] == x[..k][..k'] == l[..k][..k'] == l[..k'];
      assert CommitsVia(h, x, k', bound, t, i);
    }
  }

  /** State Machine Safety: two nodes agree on every index both have committed, at whatever moments. */
  lemma CommittedAgree(ids: set<Id>, trace: seq<Cluster>, steps: seq<Step>, j: nat, k: nat, a: Id, b: Id, i: nat)
    requires Run(ids, trace, steps) && At(trace, j, a) && At(trace, k, b)
    requires i <= trace[j].nodes[a].commit && i <= trace[k].nodes[b].commit
    ensures trace[j].nodes[a].commit <= |trace[j].nodes[a].log| && trace[k].nodes[b].commit <= |trace[k].nodes[b].log|
    ensures trace[j].nodes[a].log[..i] == trace[k].nodes[b].log[..i]
  {
    hide HistoryOk, NodeOk, Run, Next, Inv;
    var hs := RunHasChronicle(ids, trace, steps);
    NodeFacts(ids, trace, hs, j, a);
    NodeFacts(ids, trace, hs, k, b);
    var l := LaterHistory(hs, j, k);
    var x, y := trace[j].nodes[a], trace[k].nodes[b];
    CommitGrows(hs[j], hs[l], x.log, x.commit, x.term, x.log, x.term);
    CommitGrows(hs[k], hs[l], y.log, y.commit, y.term, y.log, y.term);
    JustifiedBelow(hs[l], x.log, x.commit, i, x.term);
    JustifiedBelow(hs[l], y.log, y.commit, i, y.term);
    LaterOk(ids, trace, hs, l);
    CommittedPrefixesAgree(hs[l], x.log, y.log, i, x.term, y.term);
  }

  lemma LaterOk(ids: set<Id>, trace: seq<Cluster>, hs: seq<History>, l: nat)
    requires InvThroughout(ids, trace, hs) && l < |hs|
    ensures HistoryOk(hs[l])
  {
  }

  /** Each node's map is the replay of its applied prefix, and of that prefix of any node that has applied as much. */
  lemma StateMachineSafety(ids: set<Id>, trace: seq<Cluster>, steps: seq<Step>, j: nat, k: nat, a: Id, b: Id)
    requires Run(ids, trace, steps) && At(trace, j, a) && At(trace, k, b)
    requires trace[j].nodes[a].applied <= trace[k].nodes[b].applied
    ensures trace[k].nodes[b].applied <= |trace[k].nodes[b].log|
    ensures trace[j].nodes[a].values == Replay(trace[k].nodes[b].log[..trace[j].nodes[a].applied])
  {
    hide HistoryOk, NodeOk, Run, Next, Inv;
    var hs := RunHasChronicle(ids, trace, steps);
    NodeFacts(ids, trace, hs, j, a);
    NodeFacts(ids, trace, hs, k, b);
    CommittedAgree(ids, trace, steps, j, k, a, b, trace[j].nodes[a].applied);
  }

  /** Along a run indices stay ordered, never decrease, and committed entries are never truncated or replaced. */
  lemma {:induction false} CommittedForever(ids: set<Id>, trace: seq<Cluster>, steps: seq<Step>, j: nat, k: nat, a: Id)
    requires Run(ids, trace, steps) && At(trace, j, a) && j <= k < |trace|
    ensures At(trace, k, a) && Progresses(trace[j].nodes[a], trace[k].nodes[a])
    ensures var x, y := trace[j].nodes[a], trace[k].nodes[a];
            && x.applied <= x.commit <= |x.log| && x.commit <= y.commit <= |y.log|
            && y.log[..x.commit] == x.log[..x.commit]
    decreases k - j
  {
    var hs := RunHasChronicle(ids, trace, steps);
    LongProgress(ids, trace, steps, hs, j, k, a);
    NodeFacts(ids, trace, hs, j, a);
    CommittedAgree(ids, trace, steps, j, k, a, a, trace[j].nodes[a].commit);
  }

  lemma {:induction false} LongProgress(
    ids: set<Id>, trace: seq<Cluster>, steps: seq<Step>, hs: seq<History>, j: nat, k: nat, a: Id)
    requires Run(ids, trace, steps) && InvThroughout(ids, trace, hs) && At(trace, j, a) && j <= k < |trace|
    ensures At(trace, k, a) && Progresses(trace[j].nodes[a], trace[k].nodes[a])
    decreases k - j
  {
    hide Inv;
    if j < k {
      LongProgress(ids, trace, steps, hs, j, k - 1, a);
      assert Next(trace[k - 1], steps[k - 1], trace[k - 1 + 1]);
      StepProgress(trace[k - 1], hs[k - 1], steps[k - 1], trace[k], a);
    }
  }

  /** No handler ever throws: every step that can happen in a run is defined. */
  lemma NoExceptions(ids: set<Id>, trace: seq<Cluster>, steps: seq<Step>, k: nat, s: Step)
    requires Run(ids, trace, steps) && k < |trace| && Enabled(trace[k], s)
    ensures Defined(trace[k], s)
  {
    hide Inv, Run;
    var hs := RunHasChronicle(ids, trace, steps);
    EveryStepDefined(trace[k], hs[k], s);
  }

  lemma StepIsDefined(ids: set<Id>, trace: seq<Cluster>, steps: seq<Step>, k: nat)
    requires Run(ids, trace, steps) && k < |steps|
    ensures Enabled(trace[k], steps[k]) && Defined(trace[k], steps[k]) && trace[k + 1] == After(trace[k], steps[k])
  {
    hide Enabled, Defined, After;
    assert Next(trace[k], steps[k], trace[k + 1]);
    NoExceptions(ids, trace, steps, k, steps[k]);
  }

  /** A leader's `matchIndex[p]` entries were all in p's log at some moment when p was in the leader's term. */
  lemma MatchIndexSound(ids: set<Id>, trace: seq<Cluster>, steps: seq<Step>, k: nat, a: Id, p: Id) returns (j: nat)
    requires Run(ids, trace, steps) && At(trace, k, a) && trace[k].nodes[a].status == Leader
    requires p in trace[k].nodes[a].matchIndex && trace[k].nodes[a].matchIndex[p] > 0
    ensures j <= k && At(trace, j, p) && trace[j].nodes[p].term == trace[k].nodes[a].term
    ensures Retains(trace[j].nodes[p].log, trace[k].nodes[a].log, trace[k].nodes[a].matchIndex[p])
  {
    hide HistoryOk, NodeOk, Run, Next, Inv;
    var hs := RunHasChronicle(ids, trace, steps);
    NodeFacts(ids, trace, hs, k, a);
    var n := trace[k].nodes[a];
    var ack := Ack(p, n.term, n.matchIndex[p]);
    assert ack in hs[k].acks;
    assert OnceHeld(trace, hs, k, ack);
    j :| j <= k && HeldAt(trace, hs, j, ack);
    assert Extends(hs[j], hs[k]);
    RetainsGrows(hs[j], hs[k], trace[j].nodes[p].log, n.term, ack.upto);
  }

  /** Client answers are truthful: the answer at index i is for the client's own committed entry i. */
  lemma AnswersTruthful(ids: set<Id>, trace: seq<Cluster>, steps: seq<Step>, k: nat, a: Id, f: Future)
    requires Run(ids, trace, steps) && At(trace, k, a)
    requires f in trace[k].nodes[a].answered && trace[k].nodes[a].answered[f] != NotLeader
    ensures var n := trace[k].nodes[a];
            var i := AnswerIndex(n.answered[f]);
            && 1 <= i <= n.commit <= |n.log| && f < |n.submitted| && n.log[i - 1].command == n.submitted[f]
            && n.answered[f] == ResultOf(i, n.submitted[f], Applied(Replay(n.log[..i - 1]), n.submitted[f]).1)
  {
    hide HistoryOk, NodeOk, Run, Next, Inv;
    var hs := RunHasChronicle(ids, trace, steps);
    NodeFacts(ids, trace, hs, k, a);
    assert Truthful(hs[k], trace[k].nodes[a], f);
  }

  /** No client is forgotten: every future handed out is answered, or waits at one later entry of the leader's log, its own. */
  lemma EveryFutureAccounted(ids: set<Id>, trace: seq<Cluster>, steps: seq<Step>, k: nat, a: Id, f: Future)
    requires Run(ids, trace, steps) && At(trace, k, a) && f < |trace[k].nodes[a].submitted|
    ensures var n := trace[k].nodes[a]; (f in n.answered) != (f in n.pending.Values)
    ensures var n := trace[k].nodes[a];
            f in n.pending.Values ==>
              n.status == Leader
              && exists i :: AwaitsAt(n, f, i) && forall i' :: i' in n.pending && n.pending[i'] == f ==> i' == i
  {
    hide HistoryOk, NodeOk, Run, Next, Inv;
    var hs := RunHasChronicle(ids, trace, steps);
    NodeFacts(ids, trace, hs, k, a);
    var n := trace[k].nodes[a];
    if f in n.pending.Values {
      var i :| i in n.pending && n.pending[i] == f;
      assert Waiting(hs[k], n, i);
      assert AwaitsAt(n, f, i);
    }
  }

  /** The client of this future waits for entry i, not applied yet, which holds its command. */
  ghost predicate AwaitsAt(n: Node, f: Future, i: nat) {
    && i in n.pending && n.pending[i] == f && n.applied < i <= |n.log|
    && f < |n.submitted| && n.log[i - 1].command == n.submitted[f]
  }

  lemma OwnAnswer(h: History, n: Node, f: Future)
    requires ClientsOk(h, n) && f in n.answered && n.answered[f] != NotLeader
    ensures OwnEntry(h, n, AnswerIndex(n.answered[f])) && AnswerIndex(n.answered[f]) <= n.applied
  {
    assert Truthful(h, n, f);
  }

  lemma SameNodeAnswers(h: History, n: Node, f: Future, g: Future)
    requires ClientsOk(h, n) && f in n.answered && g in n.answered
    requires AnswerIndex(n.answered[f]) == AnswerIndex(n.answered[g]) != 0
    ensures f == g
  {
  }

  /** One committed entry answers one future in the whole cluster. */
  lemma AnswersUnique(
    ids: set<Id>, trace: seq<Cluster>, steps: seq<Step>, j: nat, k: nat, a: Id, b: Id, f: Future, g: Future)
    requires Run(ids, trace, steps) && At(trace, j, a) && At(trace, k, b) && j <= k
    requires f in trace[j].nodes[a].answered && g in trace[k].nodes[b].answered
    requires AnswerIndex(trace[j].nodes[a].answered[f]) == AnswerIndex(trace[k].nodes[b].answered[g]) != 0
    ensures a == b && f == g
  {
    hide HistoryOk, NodeOk, Run, Next, Inv, ClientsOk, LogOk, OfficeOk, WireOk;
    var hs := RunHasChronicle(ids, trace, steps);
    LongProgress(ids, trace, steps, hs, j, k, a);
    NodeFacts(ids, trace, hs, k, a);
    NodeFacts(ids, trace, hs, k, b);
    var x, y := trace[k].nodes[a], trace[k].nodes[b];
    var i := AnswerIndex(y.answered[g]);
    OwnAnswer(hs[k], x, f);
    OwnAnswer(hs[k], y, g);
    if a == b {
      SameNodeAnswers(hs[k], x, f, g);
    }
    CommittedAgree(ids, trace, steps, k, k, a, b, i);
    assert x.log[i - 1] == x.log[..i][i - 1] == y.log[..i][i - 1] == y.log[i - 1];
  }

  lemma LongerRun(ids: set<Id>, trace: seq<Cluster>, steps: seq<Step>, s: Step, c': Cluster)
    requires Run(ids, trace, steps) && Next(trace[|trace| - 1], s, c')
    ensures Run(ids, trace + [c'], steps + [s])
  {
    hide Next;
    forall k: nat | k < |steps| + 1
      ensures Next((trace + [c'])[k], (steps + [s])[k], (trace + [c'])[k + 1])
    {
      if k < |steps| {
        assert Next(trace[k], steps[k], trace[k + 1]);
      }
    }
  }

  /** Any step that can happen continues a run. */
  lemma TakeStep(ids: set<Id>, trace: seq<Cluster>, steps: seq<Step>, s: Step) returns (c': Cluster)
    requires Run(ids, trace, steps) && Enabled(trace[|trace| - 1], s)
    ensures Defined(trace[|trace| - 1], s) && c' == After(trace[|trace| - 1], s)
    ensures Run(ids, trace + [c'], steps + [s])
  {
    hide Enabled, Defined, After, Next;
    NoExceptions(ids, trace, steps, |trace| - 1, s);
    c' := After(trace[|trace| - 1], s);
    IsNext(trace[|trace| - 1], s, c');
    LongerRun(ids, trace, steps, s, c');
  }

  lemma IsNext(c: Cluster, s: Step, c': Cluster)
    requires Enabled(c, s) && Defined(c, s) && c' == After(c, s)
    ensures Next(c, s, c')
  {
    hide Enabled, Defined, After;
  }

  /* ---- A run ---- */

  lemma LoneLeader(n: Node)
    requires n == Initial(n.id, {})
    ensures var l := OnElectionTimeout(n);
            l.status == Leader && l.term == 1 && l.id == n.id && l.peers == {} && l.log == [] && l.commit == 0 && l.applied == 0
            && l.matchIndex == map[] && l.nextIndex == map[] && l.pending == map[] && l.submitted == [] && l.answered == map[]
            && l.values == map[] && l.inFlight == {}
  {
    assert (set p | p in n.peers) == {};
  }

  lemma LoneLeaderAnswers(n: Node, c: Command)
    requires n.status == Leader && n.peers == {} && n.log == [] && n.commit == 0 && n.applied == 0 && n.matchIndex == map[]
    requires n.nextIndex == map[] && n.pending == map[] && n.submitted == [] && n.answered == map[] && n.values == map[]
    requires c.action == Set
    ensures var m := Submit(n, c);
            m.status == Leader && m.commit == 1 && m.applied == 1 && m.values == map[c.key := c.value]
            && m.answered == map[0 := Committed(1, c.key, c.value)]
  {
    var n1 := Enqueue(n, c);
    var n2 := ReplicateToAll(n1);
    assert n2.log == [LogEntry(n.term, c)] && n2.pending == map[1 := 0];
    assert Holders(n2.matchIndex, 1) == {};
    assert ScanCommit(n2, 1) == 1;
    var n3 := AdvanceCommit(n2);
    var n4 := ApplyOne(n3);
    assert ApplyCommitted(n3) == n4;
  }

  /** The theorems are not about nothing: a cluster of one elects itself, commits a command and answers its client. */
  lemma OneNodeAnswers(i: Id, c: Command) returns (trace: seq<Cluster>, steps: seq<Step>)
    requires c.action == Set
    ensures Run({i}, trace, steps) && |steps| == 2 && At(trace, 2, i)
    ensures var n := trace[2].nodes[i];
            n.status == Leader && n.commit == 1 && n.values == map[c.key := c.value]
            && n.answered == map[0 := Committed(1, c.key, c.value)]
  {
    hide OnElectionTimeout, Submit, Initial;
    var c0 := InitialCluster({i});
    assert {i} - {i} == {};
    var n0 := c0.nodes[i];
    StartOf(i);
    LoneLeader(n0);
    var c1 := After(c0, ElectionTimeout(i));
    LoneLeaderAnswers(c1.nodes[i], c);
    var c2 := After(c1, ClientCommand(i, c));
    SubmitKeepsId(c1.nodes[i], c);
    trace, steps := [c0, c1, c2], [ElectionTimeout(i), ClientCommand(i, c)];
  }

  lemma StartOf(i: Id)
    ensures InitialCluster({i}).nodes[i] == Initial(i, {i} - {i}) && Initial(i, {}).id == i && Initial(i, {}).peers == {}
  {
  }
}
