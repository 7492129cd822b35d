/** Page accounting: a put neither loses nor duplicates a page, and its buffered images store the new tree. */
module TreeStock {
  import opened PageFormat
  import opened SplitPoints
  import opened KeySearch
  import opened TreeNodes
  import opened TreeInsert

  /* ---- Multisets of pages ---- */

  /** Every page id below n, once. */
  function AllIds(n: nat): multiset<PageId> {
    if n == 0 then multiset{} else AllIds(n - 1) + multiset{n - 1}
  }

  lemma {:induction false} AllIdsOnce(n: nat, id: PageId)
    ensures AllIds(n)[id] == if id < n then 1 else 0
    decreases n
  {
    if n > 0 {
      AllIdsOnce(n - 1, id);
    }
  }

  function Written(writes: seq<PageWrite>): multiset<PageId> {
    if writes == [] then multiset{} else Written(writes[..|writes| - 1]) + multiset{writes[|writes| - 1].id}
  }

  function PagesOf(root: Rooted): multiset<PageId> {
    multiset{root.id} + PagesBelow(root.tree)
  }

  function ResultBelow(r: InsertResult): multiset<PageId> {
    match r
    case Single(n) => PagesBelow(n)
    case Split(left, _, right) => PagesBelow(left) + PagesBelow(right)
  }

  /** Ids handed out since `w` came off its free list or are fresh, and every one was written. */
  ghost predicate Supplied(w: Work, w': Work) {
    && w.next <= w'.next && w.writes <= w'.writes && w.freed <= w'.freed
    && multiset(w'.free) + Written(w'.writes) + AllIds(w.next)
       == multiset(w.free) + Written(w.writes) + AllIds(w'.next)
  }

  lemma SuppliedTwice(w: Work, w1: Work, w2: Work)
    requires Supplied(w, w1) && Supplied(w1, w2)
    ensures Supplied(w, w2)
  {
    hide AllIds, Written;
    Chain(multiset(w.free) + Written(w.writes), multiset(w1.free) + Written(w1.writes),
          multiset(w2.free) + Written(w2.writes), AllIds(w.next), AllIds(w1.next), AllIds(w2.next));
  }

  lemma Chain(p: multiset<PageId>, p1: multiset<PageId>, p2: multiset<PageId>,
              a: multiset<PageId>, a1: multiset<PageId>, a2: multiset<PageId>)
    requires p1 + a == p + a1 && p2 + a1 == p1 + a2
    ensures p2 + a == p + a2
  {
    forall x: PageId
      ensures (p2 + a)[x] == (p + a2)[x]
    {
      assert (p1 + a)[x] == (p + a1)[x] && (p2 + a1)[x] == (p1 + a2)[x];
    }
  }

  lemma WroteSupplied(w: Work, n: Node)
    ensures Supplied(w, Wrote(w, n)) && Wrote(w, n).freed == w.freed
    ensures Written(Wrote(w, n).writes) == Written(w.writes) + multiset{NextId(w)}
  {
    var w' := Wrote(w, n);
    assert w'.writes[..|w'.writes| - 1] == w.writes;
    if w.free != [] {
      assert w.free == w'.free + [NextId(w)];
    }
  }

  /* ---- Conservation through an insertion ---- */

  /** The pages under the result and the orphans are the old pages under the node and the newly written ones. */
  ghost predicate Balanced(t: Node, w: Work, r: InsertResult, w': Work) {
    ResultBelow(r) + multiset(w'.freed) + Written(w.writes) == PagesBelow(t) + multiset(w.freed) + Written(w'.writes)
  }

  lemma WithKidBelow(t: Node, i: nat, id: PageId, n: Node)
    requires t.Inner? && |t.ids| == |t.kids| && i < |t.kids|
    ensures PagesBelow(WithKid(t, i, id, n)) + multiset{t.ids[i]} + PagesBelow(t.kids[i])
         == PagesBelow(t) + multiset{id} + PagesBelow(n)
  {
    var g := WithKid(t, i, id, n);
    BelowAround(t.ids, t.kids, i);
    BelowAround(g.ids, g.kids, i);
    hide PagesBelow, AllPagesBelow;
    assert g.ids[..i] == t.ids[..i] && g.ids[i + 1..] == t.ids[i + 1..];
    assert g.kids[..i] == t.kids[..i] && g.kids[i + 1..] == t.kids[i + 1..];
    assert PagesBelow(g) == multiset(g.ids) + AllPagesBelow(g.kids) by { BelowInner(g); }
    BelowInner(t);
  }

  lemma BelowInner(t: Node)
    requires t.Inner?
    ensures PagesBelow(t) == multiset(t.ids) + AllPagesBelow(t.kids)
  {
  }

  lemma TwoBelow(left: Node, right: Node)
    ensures AllPagesBelow([left, right]) == PagesBelow(left) + PagesBelow(right)
  {
    hide PagesBelow;
    assert [left, right][1..] == [right] && [right][1..] == [];
    assert AllPagesBelow([right]) == PagesBelow(right) + AllPagesBelow([]);
    assert AllPagesBelow([left, right]) == PagesBelow(left) + AllPagesBelow([right]);
  }

  lemma WithKidsBelow(t: Node, i: nat, sep: Key, leftId: PageId, rightId: PageId, left: Node, right: Node)
    requires t.Inner? && |t.ids| == |t.kids| == |t.keys| + 1 && i < |t.kids|
    ensures PagesBelow(WithKids(t, i, sep, leftId, rightId, left, right)) + multiset{t.ids[i]} + PagesBelow(t.kids[i])
         == PagesBelow(t) + (multiset{leftId} + multiset{rightId}) + (PagesBelow(left) + PagesBelow(right))
  {
    hide PagesBelow, AllPagesBelow;
    var g := WithKids(t, i, sep, leftId, rightId, left, right);
    BelowAround(t.ids, t.kids, i);
    AllPagesBelowConcat(t.kids[..i] + [left, right], t.kids[i + 1..]);
    AllPagesBelowConcat(t.kids[..i], [left, right]);
    TwoBelow(left, right);
    BelowInner(g);
    BelowInner(t);
    assert multiset(g.ids) == multiset(t.ids[..i]) + (multiset{leftId} + multiset{rightId}) + multiset(t.ids[i + 1..]);
    Shuffle(multiset(t.ids[..i]), multiset(t.ids[i + 1..]), AllPagesBelow(t.kids[..i]), AllPagesBelow(t.kids[i + 1..]),
            multiset{leftId} + multiset{rightId}, PagesBelow(left) + PagesBelow(right),
            multiset{t.ids[i]}, PagesBelow(t.kids[i]));
  }

  lemma Shuffle(a: multiset<PageId>, b: multiset<PageId>, ka: multiset<PageId>, kb: multiset<PageId>,
                ids: multiset<PageId>, below: multiset<PageId>, oldId: multiset<PageId>, oldBelow: multiset<PageId>)
    ensures a + ids + b + (ka + below + kb) + oldId + oldBelow == a + oldId + b + (ka + oldBelow + kb) + ids + below
  {
  }

  lemma SettledBelow(g: Node, pageSize: nat)
    requires g.Inner? && |g.keys| >= 2 && |g.ids| == |g.kids| == |g.keys| + 1
    ensures ResultBelow(Settled(g, pageSize)) == PagesBelow(g)
  {
    hide InnerCut, PagesBelow, AllPagesBelow, ContentSize;
    if ContentSize(ContentOf(g)) > pageSize {
      var m := InnerCut(g.keys, pageSize);
      var left := Inner(g.keys[..m], g.ids[..m + 1], g.kids[..m + 1]);
      var right := Inner(g.keys[m + 1..], g.ids[m + 1..], g.kids[m + 1..]);
      assert g.ids == left.ids + right.ids && g.kids == left.kids + right.kids;
      AllPagesBelowConcat(left.kids, right.kids);
      BelowInner(g);
      BelowInner(left);
      BelowInner(right);
    }
  }

  /** The step from the child's balance to the parent's. */
  lemma AbsorbBalanced(t: Node, i: nat, result: InsertResult, w: Work, w1: Work, pageSize: nat)
    requires t.Inner? && |t.keys| >= 1 && |t.ids| == |t.kids| == |t.keys| + 1 && i < |t.kids|
    requires Supplied(w, w1) && Balanced(t.kids[i], w, result, w1)
    ensures var (r, w') := Absorb(t, i, result, Orphaned(w1, t.ids[i]), pageSize);
            Supplied(w, w') && Balanced(t, w, r, w')
  {
    hide PagesBelow, Written, AllIds, Settled;
    var w2 := Orphaned(w1, t.ids[i]);
    assert multiset(w2.freed) == multiset(w1.freed) + multiset{t.ids[i]};
    assert Supplied(w, w2);
    match result {
      case Single(n) =>
        WroteSupplied(w2, n);
        SuppliedTwice(w, w2, Wrote(w2, n));
        WithKidBelow(t, i, NextId(w2), n);
        Cancel(PagesBelow(WithKid(t, i, NextId(w2), n)), multiset(w1.freed), Written(w.writes), PagesBelow(t), multiset(w.freed),
               Written(w1.writes), PagesBelow(t.kids[i]), multiset{t.ids[i]}, PagesBelow(n), multiset{NextId(w2)});
      case Split(l, sep, r) =>
        var w3 := Wrote(w2, l);
        WroteSupplied(w2, l);
        WroteSupplied(w3, r);
        SuppliedTwice(w, w2, w3);
        SuppliedTwice(w, w3, Wrote(w3, r));
        WithKidsBelow(t, i, sep, NextId(w2), NextId(w3), l, r);
        SettledBelow(WithKids(t, i, sep, NextId(w2), NextId(w3), l, r), pageSize);
        Cancel(PagesBelow(WithKids(t, i, sep, NextId(w2), NextId(w3), l, r)), multiset(w1.freed),
               Written(w.writes), PagesBelow(t),
               multiset(w.freed), Written(w1.writes), PagesBelow(t.kids[i]), multiset{t.ids[i]}, PagesBelow(l) + PagesBelow(r),
               multiset{NextId(w2)} + multiset{NextId(w3)});
    }
  }

  /** Multiset arithmetic behind the balance: the child's old pages cancel. */
  lemma Cancel(
    g: multiset<PageId>, freed1: multiset<PageId>, written: multiset<PageId>, t: multiset<PageId>, freed: multiset<PageId>,
    written1: multiset<PageId>, kid: multiset<PageId>, kidId: multiset<PageId>, r: multiset<PageId>, ids: multiset<PageId>)
    requires g + kidId + kid == t + ids + r
    requires r + freed1 + written == kid + freed + written1
    ensures g + (freed1 + kidId) + written == t + freed + (written1 + ids)
  {
    forall x: PageId
      ensures (g + (freed1 + kidId) + written)[x] == (t + freed + (written1 + ids))[x]
    {
      assert (g + kidId + kid)[x] == (t + ids + r)[x];
      assert (r + freed1 + written)[x] == (kid + freed + written1)[x];
    }
  }

  lemma {:induction false} InsertBalanced(t: Node, h: nat, e: Entry, pageSize: nat, w: Work)
    requires Shaped(t, h)
    ensures var (r, w') := InsertInto(t, h, e, pageSize, w); Supplied(w, w') && Balanced(t, w, r, w')
    decreases h
  {
    hide Absorb, ChildRank, Balanced, InsertLeaf;
    match t {
      case Leaf(es) => LeafBalanced(es, e, pageSize, w);
      case Inner(keys, ids, kids) =>
        var i := ChildRank(keys, e.key);
        InsertBalanced(kids[i], h - 1, e, pageSize, w);
        var (result, w1) := InsertInto(kids[i], h - 1, e, pageSize, w);
        AbsorbBalanced(t, i, result, w, w1, pageSize);
    }
  }

  lemma LeafBalanced(es: seq<Entry>, e: Entry, pageSize: nat, w: Work)
    ensures Supplied(w, w) && Balanced(Leaf(es), w, InsertLeaf(es, e, pageSize), w)
  {
    hide LeafCut, EntriesSize, Upserted;
  }

  /** Page conservation through a put: new pages and orphans are exactly the old pages and the written ones. */
  lemma PutConserves(root: Rooted, e: Entry, pageSize: nat, w: Work)
    requires Shaped(root.tree, root.height)
    ensures var (after, w') := PutTree(root, e, pageSize, w);
            && Supplied(w, w')
            && PagesOf(after) + multiset(w'.freed) + Written(w.writes)
               == PagesOf(root) + multiset(w.freed) + Written(w'.writes)
  {
    hide InsertInto, PagesBelow, Written, AllIds, AllPagesBelow, Supplied, Wrote;
    InsertBalanced(root.tree, root.height, e, pageSize, w);
    var (result, w1) := InsertInto(root.tree, root.height, e, pageSize, w);
    var w2 := Orphaned(w1, root.id);
    assert multiset(w2.freed) == multiset(w1.freed) + multiset{root.id};
    OrphanSupplied(w, w1, root.id);
    match result {
      case Single(n) =>
        WroteSupplied(w2, n);
        SuppliedTwice(w, w2, Wrote(w2, n));
        Cancel(multiset{NextId(w2)} + PagesBelow(n), multiset(w1.freed), Written(w.writes), PagesOf(root), multiset(w.freed),
               Written(w1.writes), PagesBelow(root.tree), multiset{root.id}, PagesBelow(n), multiset{NextId(w2)});
      case Split(l, sep, r) =>
        var w3, w4 := Wrote(w2, l), Wrote(Wrote(w2, l), r);
        var top := Inner([sep], [NextId(w2), NextId(w3)], [l, r]);
        WroteSupplied(w2, l);
        WroteSupplied(w3, r);
        WroteSupplied(w4, top);
        SuppliedTwice(w, w2, w3);
        SuppliedTwice(w, w3, w4);
        SuppliedTwice(w, w4, Wrote(w4, top));
        TopBelow(sep, NextId(w2), NextId(w3), l, r);
        var ids := multiset{NextId(w2)} + multiset{NextId(w3)} + multiset{NextId(w4)};
        Cancel(multiset{NextId(w4)} + PagesBelow(top), multiset(w1.freed), Written(w.writes), PagesOf(root), multiset(w.freed),
               Written(w1.writes), PagesBelow(root.tree), multiset{root.id}, PagesBelow(l) + PagesBelow(r), ids);
    }
  }

  lemma OrphanSupplied(w: Work, w1: Work, id: PageId)
    requires Supplied(w, w1)
    ensures Supplied(w, Orphaned(w1, id))
  {
    hide Written, AllIds;
  }

  lemma TopBelow(sep: Key, left: PageId, right: PageId, l: Node, r: Node)
    ensures PagesBelow(Inner([sep], [left, right], [l, r])) == multiset{left} + multiset{right} + PagesBelow(l) + PagesBelow(r)
  {
    hide PagesBelow, AllPagesBelow;
    var top := Inner([sep], [left, right], [l, r]);
    BelowInner(top);
    TwoBelow(l, r);
    assert multiset(top.ids) == multiset{left} + multiset{right};
  }
}
