/**
 How a history grows: new elections, votes and acknowledgements are only added, and a
 leader's log is only extended. Everything recorded before stays true.
 */
module RaftGrowth {
  import opened SetFacts
  import opened RaftLog
  import opened RaftHistory

  ghost predicate ElectionExtends(e: Election, e': Election) {
    e' == e.(log := e'.log) && |e.log| <= |e'.log| && e'.log[..|e.log|] == e.log
  }

  ghost predicate Extends(h: History, h': History) {
    && h'.ids == h.ids
    && (forall t :: t in h.elections ==> t in h'.elections && ElectionExtends(h.elections[t], h'.elections[t]))
    && (forall t, v :: (t, v) in h.votes ==> (t, v) in h'.votes && h'.votes[(t, v)] == h.votes[(t, v)])
    && h.acks <= h'.acks
  }

  lemma RetainsGrows(h: History, h': History, x: Log, t: nat, n: nat)
    requires Extends(h, h') && t in h.elections && Retains(x, h.elections[t].log, n)
    ensures t in h'.elections && Retains(x, h'.elections[t].log, n)
  {
    var l, l' := h.elections[t].log, h'.elections[t].log;
    assert ElectionExtends(h.elections[t], h'.elections[t]);
    assert l'[..n] == l'[..|l|][..n];
  }

  lemma GroundedGrows(h: History, h': History, x: Log)
    requires Extends(h, h') && Grounded(h, x)
    ensures Grounded(h', x)
  {
    forall k: nat | k < |x|
      ensures GroundedAt(h', x, k)
    {
      assert GroundedAt(h, x, k);
      RetainsGrows(h, h', x, x[k].term, k + 1);
    }
  }

  lemma DivergenceGrows(h: History, h': History, t: nat, j: nat, bound: nat, s: nat)
    requires Extends(h, h') && DivergedBetween(h, t, j, bound, s)
    ensures DivergedBetween(h', t, j, bound, s)
  {
    var x, y := h.elections[s].log, h.elections[t].log;
    var x', y' := h'.elections[s].log, h'.elections[t].log;
    var k: nat :| k < j && DivergesAt(x, y, k);
    assert x[k] == x'[..|x|][k] && y[k] == y'[..|y|][k];
    assert DivergesAt(x', y', k);
  }

  lemma KeptGrows(h: History, h': History, x: Log, t: nat, n: nat, bound: nat, bound': nat)
    requires Extends(h, h') && Kept(h, x, t, n, bound) && bound <= bound'
    ensures Kept(h', x, t, n, bound')
  {
    forall j: nat | j <= n
      ensures KeptAt(h', x, t, j, bound')
    {
      assert KeptAt(h, x, t, j, bound);
      if Retains(x, h.elections[t].log, j) {
        RetainsGrows(h, h', x, t, j);
      } else {
        var s :| DivergedBetween(h, t, j, bound, s);
        DivergenceGrows(h, h', t, j, bound, s);
        assert DivergedBetween(h', t, j, bound', s);
      }
    }
  }

  lemma ChosenGrows(h: History, h': History, t: nat, i: nat)
    requires Extends(h, h') && Chosen(h, t, i)
    ensures Chosen(h', t, i)
  {
    SubsetCard(Ackers(h, t, i), Ackers(h', t, i));
    var l, l' := h.elections[t].log, h'.elections[t].log;
    assert l'[i - 1] == l'[..|l|][i - 1];
  }

  lemma CommitGrows(h: History, h': History, x: Log, k: nat, bound: nat, x': Log, bound': nat)
    requires Extends(h, h') && CommitJustified(h, x, k, bound)
    requires Retains(x', x, k) && bound <= bound'
    ensures CommitJustified(h', x', k, bound')
  {
    if k > 0 {
      var t: nat, i: nat :| CommitsVia(h, x, k, bound, t, i);
      ChosenGrows(h, h', t, i);
      RetainsGrows(h, h', x, t, k);
      assert CommitsVia(h', x', k, bound', t, i);
    }
  }

  ghost predicate SameElection(h: History, h': History, t: nat) {
    t in h.elections && t in h'.elections && h'.elections[t] == h.elections[t]
  }

  lemma ElectionGrows(h: History, h': History, t: nat)
    requires Extends(h, h') && SameElection(h, h', t) && ElectionOk(h, t)
    ensures ElectionOk(h', t)
  {
    GroundedGrows(h, h', h.elections[t].log);
    forall v | v in h.elections[t].quorum
      ensures Supports(h', t, v)
    {
      assert Supports(h, t, v);
    }
  }

  /** A history stays consistent when everything it did not hold before is. */
  lemma HistoryGrows(h: History, h': History)
    requires HistoryOk(h) && Extends(h, h')
    requires forall t :: t in h'.elections && !SameElection(h, h', t) ==> ElectionOk(h', t)
    requires forall t, v :: (t, v) in h'.votes && (t, v) !in h.votes ==> VoteOk(h', t, v)
    requires forall a :: a in h'.acks && a !in h.acks ==> AckOk(h', a)
    requires forall t, v, a :: (t, v) in h'.votes && a in h'.acks && ((t, v) !in h.votes || a !in h.acks)
               ==> VoteKeeps(h', t, v, a)
    ensures HistoryOk(h')
  {
    forall t | t in h'.elections
      ensures ElectionOk(h', t)
    {
      if SameElection(h, h', t) {
        ElectionGrows(h, h', t);
      }
    }
    forall t, v | (t, v) in h'.votes
      ensures VoteOk(h', t, v)
    {
      if (t, v) in h.votes {
        assert VoteOk(h, t, v);
        GroundedGrows(h, h', h.votes[(t, v)].log);
      }
    }
    forall a | a in h'.acks
      ensures AckOk(h', a)
    {
      if a in h.acks {
        assert AckOk(h, a);
      }
    }
    forall t, v, a | (t, v) in h'.votes && a in h'.acks
      ensures VoteKeeps(h', t, v, a)
    {
      if (t, v) in h.votes && a in h.acks && a.node == v && a.term < t {
        assert VoteKeeps(h, t, v, a);
        var w := h.votes[(t, v)];
        KeptGrows(h, h', w.log, a.term, a.upto, VoteBound(w, t), VoteBound(w, t));
      }
    }
  }
}
