/**
 What has happened in a cluster so far: who was elected in each term and what its log
 has become, who voted for whom holding which log, and who acknowledged how much.
 The central result, `LeaderCompleteness`, follows from facts about the history alone.
 */
module RaftHistory {
  import opened SetFacts
  import opened RaftLog
  import opened RaftProtocol

  /** A won election; `log` keeps growing while the leader appends. */
  datatype Election = Election(leader: Id, quorum: set<Id>, base: nat, log: Log)

  /** A vote, with the voter's log when it voted; `early` when the term had no leader yet. */
  datatype Vote = Vote(candidate: Id, log: Log, lastIndex: nat, lastTerm: nat, early: bool)

  /** `node` held the first `upto` entries of the leader of `term` while in that term. */
  datatype Ack = Ack(node: Id, term: nat, upto: nat)

  /** `counted[i]` holds the voters node i has counted in its current candidacy. */
  datatype History = History(
    ids: set<Id>,
    elections: map<nat, Election>,
    votes: map<(nat, Id), Vote>,
    acks: set<Ack>,
    counted: map<Id, set<Id>>)

  /* ---- Logs against leader logs ---- */

  ghost predicate Retains(x: Log, y: Log, n: nat) {
    n <= |x| && n <= |y| && x[..n] == y[..n]
  }

  ghost predicate DivergesAt(x: Log, y: Log, k: nat) {
    k < |x| && k < |y| && x[k].term != y[k].term
  }

  ghost predicate Diverges(x: Log, y: Log, n: nat) {
    exists k: nat :: k < n && DivergesAt(x, y, k)
  }

  ghost predicate Ascending(log: Log) {
    forall j, k :: 0 <= j <= k < |log| ==> log[j].term <= log[k].term
  }

  ghost predicate GroundedAt(h: History, log: Log, k: nat) {
    k < |log| && log[k].term in h.elections && Retains(log, h.elections[log[k].term].log, k + 1)
  }

  /** Every entry sits where the leader of its term put it, below the same entries. */
  ghost predicate Grounded(h: History, log: Log) {
    forall k: nat :: k < |log| ==> GroundedAt(h, log, k)
  }

  ghost predicate DivergedBetween(h: History, t: nat, n: nat, bound: nat, s: nat) {
    t < s <= bound && s in h.elections && t in h.elections && Diverges(h.elections[s].log, h.elections[t].log, n)
  }

  ghost predicate KeptAt(h: History, x: Log, t: nat, j: nat, bound: nat) {
    t in h.elections &&
    (Retains(x, h.elections[t].log, j) || exists s :: DivergedBetween(h, t, j, bound, s))
  }

  /** `x` still has each prefix its owner acknowledged, unless a later leader is known to disagree with that prefix. */
  ghost predicate Kept(h: History, x: Log, t: nat, n: nat, bound: nat) {
    forall j: nat :: j <= n ==> KeptAt(h, x, t, j, bound)
  }

  /* ---- Majorities ---- */

  function Ackers(h: History, t: nat, i: nat): set<Id> {
    set a | a in h.acks && a.term == t && a.upto >= i :: a.node
  }

  /** Entry `i` of term `t`'s leader is of that term and on a majority: Raft's rule for committing. */
  ghost predicate Chosen(h: History, t: nat, i: nat) {
    && t in h.elections
    && 0 < i <= |h.elections[t].log|
    && h.elections[t].log[i - 1].term == t
    && |Ackers(h, t, i)| >= Majority(|h.ids|)
  }

  ghost predicate CommitsVia(h: History, log: Log, k: nat, bound: nat, t: nat, i: nat) {
    Chosen(h, t, i) && t <= bound && k <= i && Retains(log, h.elections[t].log, k)
  }

  ghost predicate CommitJustified(h: History, log: Log, k: nat, bound: nat) {
    k == 0 || exists t: nat, i: nat :: CommitsVia(h, log, k, bound, t, i)
  }

  lemma MajoritiesIntersect(ids: set<Id>, a: set<Id>, b: set<Id>) returns (v: Id)
    requires a <= ids && b <= ids
    requires |a| >= Majority(|ids|) && |b| >= Majority(|ids|)
    ensures v in a && v in b
  {
    v := Overlap(ids, a, b);
  }

  /* ---- What every history satisfies ---- */

  ghost predicate Supports(h: History, t: nat, v: Id) {
    && t in h.elections
    && (t, v) in h.votes
    && var e, w := h.elections[t], h.votes[(t, v)];
    && w.candidate == e.leader && w.early
    && e.base <= |e.log| && w.lastIndex == e.base && w.lastTerm == LastTerm(e.log[..e.base])
  }

  ghost predicate ElectionOk(h: History, t: nat)
    requires t in h.elections
  {
    var e := h.elections[t];
    && e.leader in h.ids
    && e.quorum <= h.ids && |e.quorum| >= Majority(|h.ids|)
    && (forall v :: v in e.quorum ==> Supports(h, t, v))
    && e.base <= |e.log|
    && Ack(e.leader, t, |e.log|) in h.acks
    && Grounded(h, e.log) && Ascending(e.log)
    && (forall k: nat :: k < |e.log| ==> if k < e.base then e.log[k].term < t else e.log[k].term == t)
  }

  ghost predicate VoteOk(h: History, t: nat, v: Id)
    requires (t, v) in h.votes
  {
    var w := h.votes[(t, v)];
    && v in h.ids && w.candidate in h.ids
    && Grounded(h, w.log) && Ascending(w.log)
    && LogUpToDate(w.lastTerm, w.lastIndex, w.log)
    && (t !in h.elections ==> w.early)
  }

  ghost predicate AckOk(h: History, a: Ack) {
    a.term in h.elections && a.upto <= |h.elections[a.term].log| && a.node in h.ids
  }

  function VoteBound(w: Vote, t: nat): nat {
    if w.early && t > 0 then t - 1 else t
  }

  ghost predicate VoteKeeps(h: History, t: nat, v: Id, a: Ack)
    requires (t, v) in h.votes
  {
    a.node == v && a.term < t ==> Kept(h, h.votes[(t, v)].log, a.term, a.upto, VoteBound(h.votes[(t, v)], t))
  }

  ghost predicate HistoryOk(h: History) {
    && (forall t :: t in h.elections ==> ElectionOk(h, t))
    && (forall t, v :: (t, v) in h.votes ==> VoteOk(h, t, v))
    && (forall a :: a in h.acks ==> AckOk(h, a))
    && (forall t, v, a :: (t, v) in h.votes && a in h.acks ==> VoteKeeps(h, t, v, a))
  }

  /* ---- Log matching ---- */

  /** Two grounded logs that agree on the term at an index agree on everything up to it. */
  lemma GroundedLogsMatch(h: History, x: Log, y: Log, k: nat)
    requires Grounded(h, x) && Grounded(h, y)
    requires k < |x| && k < |y| && x[k].term == y[k].term
    ensures x[..k + 1] == y[..k + 1]
  {
    assert GroundedAt(h, x, k) && GroundedAt(h, y, k);
  }

  /** With no position of unequal term below `n`, grounded logs share their first `n` entries. */
  lemma AgreeUnlessDiverging(h: History, x: Log, y: Log, n: nat)
    requires Grounded(h, x) && Grounded(h, y)
    requires n <= |x| && n <= |y| && !Diverges(x, y, n)
    ensures x[..n] == y[..n]
  {
    if n > 0 {
      assert !DivergesAt(x, y, n - 1);
      GroundedLogsMatch(h, x, y, n - 1);
    }
  }

  lemma PrefixGrounded(h: History, x: Log, n: nat)
    requires n <= |x|
    ensures Grounded(h, x) ==> Grounded(h, x[..n])
    ensures Ascending(x) ==> Ascending(x[..n])
  {
    if Grounded(h, x) {
      forall k: nat | k < n
        ensures GroundedAt(h, x[..n], k)
      {
        assert GroundedAt(h, x, k);
        assert x[..n][..k + 1] == x[..k + 1];
      }
    }
  }

  /* ---- Leader completeness ---- */

  ghost predicate HasPrefix(h: History, t: nat, i: nat, t': nat)
    requires t in h.elections && t' in h.elections
  {
    Retains(h.elections[t'].log, h.elections[t].log, i)
  }

  /** Leader Completeness: what a leader of term t had chosen is in the log of every later leader, from its election on. */
  lemma {:induction false} LeaderCompleteness(h: History, t: nat, i: nat, t': nat)
    requires HistoryOk(h)
    requires Chosen(h, t, i) && t' in h.elections && t < t'
    ensures HasPrefix(h, t, i, t') && i <= h.elections[t'].base
    decreases t'
  {
    assert ElectionOk(h, t') && ElectionOk(h, t);
    var e, chosen := h.elections[t'], h.elections[t].log;
    assert Ackers(h, t, i) <= h.ids by {
      forall a | a in h.acks ensures a.node in h.ids { assert AckOk(h, a); }
    }
    var v := MajoritiesIntersect(h.ids, Ackers(h, t, i), e.quorum);
    var a :| a in h.acks && a.term == t && a.upto >= i && a.node == v;
    assert Supports(h, t', v);
    var w := h.votes[(t', v)];
    VoterHoldsChosen(h, t, i, t', a);
    assert VoteOk(h, t', v);
    var c := e.log[..e.base];
    PrefixGrounded(h, e.log, e.base);
    CandidateHoldsChosen(h, t, i, t', w.log);
    assert c[..i] == e.log[..i];
  }

  /** The voter common to both majorities still held the chosen entries when it voted. */
  lemma {:induction false} VoterHoldsChosen(h: History, t: nat, i: nat, t': nat, a: Ack)
    requires HistoryOk(h)
    requires Chosen(h, t, i) && t < t' && t' in h.elections
    requires a in h.acks && a.term == t && a.upto >= i && Supports(h, t', a.node)
    ensures Retains(h.votes[(t', a.node)].log, h.elections[t].log, i)
    decreases t', 0
  {
    var w := h.votes[(t', a.node)];
    assert VoteKeeps(h, t', a.node, a);
    assert KeptAt(h, w.log, t, i, VoteBound(w, t'));
    if !Retains(w.log, h.elections[t].log, i) {
      var s :| DivergedBetween(h, t, i, VoteBound(w, t'), s);
      LeaderCompleteness(h, t, i, s);
    }
  }

  /** A candidate at least as up to date as a log holding the chosen entries holds them too. */
  lemma {:induction false} CandidateHoldsChosen(h: History, t: nat, i: nat, t': nat, w: Log)
    requires HistoryOk(h)
    requires Chosen(h, t, i) && t < t' && t' in h.elections
    requires Grounded(h, w) && Ascending(w) && Retains(w, h.elections[t].log, i)
    requires var e := h.elections[t']; e.base <= |e.log| && LogUpToDate(LastTerm(e.log[..e.base]), e.base, w)
    ensures Retains(h.elections[t'].log[..h.elections[t'].base], h.elections[t].log, i)
    decreases t', 0
  {
    assert ElectionOk(h, t') && ElectionOk(h, t);
    var e, chosen := h.elections[t'], h.elections[t].log;
    var c := e.log[..e.base];
    PrefixGrounded(h, e.log, e.base);
    assert w[i - 1] == chosen[i - 1];
    var u := LastTerm(c);
    assert t <= LastTerm(w) <= u;
    assert GroundedAt(h, c, |c| - 1);
    var owner := h.elections[u].log;
    if u == LastTerm(w) {
      GroundedLogsMatch(h, c, w, |w| - 1) by {
        assert GroundedAt(h, w, |w| - 1);
        assert c[|w| - 1].term == u by {
          assert owner[|w| - 1] == w[|w| - 1];
          assert c == owner[..|c|];
        }
      }
      assert c[..i] == w[..i];
    } else {
      LeaderCompleteness(h, t, i, u);
      assert c == owner[..|c|];
      assert |c| >= i;
      assert c[..i] == owner[..i];
    }
  }
}
