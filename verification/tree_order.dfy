/** A put keeps the separator convention and changes exactly one entry of the tree. */
module TreeOrder {
  import opened Wrappers
  import opened ByteStrings
  import opened PageFormat
  import opened SplitPoints
  import opened KeySearch
  import opened TreeNodes
  import opened TreeInsert

  ghost predicate ResultShaped(r: InsertResult, h: nat) {
    match r
    case Single(n) => Shaped(n, h)
    case Split(left, _, right) => Shaped(left, h) && Shaped(right, h)
  }

  /** Both halves keep the outer bounds and meet at the separator, which is strictly inside them. */
  ghost predicate ResultOrdered(r: InsertResult, h: nat, lo: Option<Key>, hi: Option<Key>)
    requires ResultShaped(r, h)
  {
    match r
    case Single(n) => Ordered(n, h, lo, hi)
    case Split(left, sep, right) =>
      && Ordered(left, h, lo, Some(sep)) && Ordered(right, h, Some(sep), hi)
      && After(lo, sep) && Before(sep, hi)
  }

  function ResultEntries(r: InsertResult): seq<Entry> {
    match r
    case Single(n) => Entries(n)
    case Split(left, _, right) => Entries(left) + Entries(right)
  }

  lemma FitsAreShaped(r: InsertResult, h: nat, pageSize: nat)
    requires ResultFits(r, h, pageSize)
    ensures ResultShaped(r, h)
  {
  }

  /* ---- Leaves ---- */

  lemma UpsertedWithin(es: seq<Entry>, e: Entry, lo: Option<Key>, hi: Option<Key>)
    requires Within(es, lo, hi) && From(lo, e.key) && Before(e.key, hi)
    ensures Within(Upserted(es, e), lo, hi)
  {
    hide Less, AtMost, Search, From, Before;
    forall x | x in Upserted(es, e)
      ensures x == e || x in es
    {
    }
  }

  lemma InsertLeafOrdered(es: seq<Entry>, e: Entry, pageSize: nat, lo: Option<Key>, hi: Option<Key>)
    requires MIN_PAGE_SIZE <= pageSize && LeafFits(es, pageSize) && WithinLimits(e, pageSize)
    requires SortedEntries(es) && Within(es, lo, hi) && From(lo, e.key) && Before(e.key, hi)
    ensures ResultOrdered(InsertLeaf(es, e, pageSize), 0, lo, hi)
    ensures ResultEntries(InsertLeaf(es, e, pageSize)) == Upserted(es, e)
  {
    hide Less, AtMost, EntriesSize, LeafCut, LeafFits, WithinLimits, From, Before, After, Within, ResultOrdered;
    var built := Upserted(es, e);
    UpsertedSorted(es, e);
    UpsertedWithin(es, e, lo, hi);
    InsertLeafFits(es, e, pageSize);
    hide Upserted, SortedEntries;
    if NODE_HEADER + EntriesSize(built) <= pageSize {
      WholeLeafOrdered(built, lo, hi);
    } else {
      var m := LeafCut(built, pageSize);
      assert built[m..][0] == built[m];
      LeafHalvesOrdered(built, m, lo, hi);
    }
  }

  lemma WholeLeafOrdered(es: seq<Entry>, lo: Option<Key>, hi: Option<Key>)
    requires SortedEntries(es) && Within(es, lo, hi)
    ensures ResultOrdered(Single(Leaf(es)), 0, lo, hi)
  {
  }

  lemma LeafHalvesOrdered(es: seq<Entry>, m: nat, lo: Option<Key>, hi: Option<Key>)
    requires SortedEntries(es) && Within(es, lo, hi) && 1 <= m < |es|
    ensures ResultOrdered(Split(Leaf(es[..m]), es[m].key, Leaf(es[m..])), 0, lo, hi)
    ensures ResultEntries(Split(Leaf(es[..m]), es[m].key, Leaf(es[m..]))) == es
  {
    hide From, Before, After;
    CutOrdered(es, m, lo, hi);
    assert es == es[..m] + es[m..];
  }

  lemma CutOrdered(es: seq<Entry>, m: nat, lo: Option<Key>, hi: Option<Key>)
    requires SortedEntries(es) && Within(es, lo, hi) && 1 <= m < |es|
    ensures SortedEntries(es[..m]) && Within(es[..m], lo, Some(es[m].key))
    ensures SortedEntries(es[m..]) && Within(es[m..], Some(es[m].key), hi)
    ensures After(lo, es[m].key) && Before(es[m].key, hi)
  {
    hide Less;
    var sep := es[m].key;
    forall e | e in es[m..]
      ensures AtMost(sep, e.key)
    {
      var j :| m <= j < |es| && es[j] == e;
      LessIrreflexive(sep);
      if j > m {
        LessAsymmetric(sep, e.key);
      }
    }
    assert es[0] in es && es[m] in es;
    if lo.Some? {
      AtMostLess(lo.value, es[0].key, sep);
    }
  }

  /* ---- Internal pages ---- */

  lemma WithKidOrdered(t: Node, h: nat, i: nat, id: PageId, n: Node, lo: Option<Key>, hi: Option<Key>)
    requires Shaped(t, h) && Ordered(t, h, lo, hi) && t.Inner? && i < |t.kids| && Shaped(n, h - 1)
    requires Ordered(n, h - 1, LowerBound(t.keys, i, lo), UpperBound(t.keys, i, hi))
    ensures Shaped(WithKid(t, i, id, n), h) && Ordered(WithKid(t, i, id, n), h, lo, hi)
  {
    hide Less, AtMost, From, Before, After;
    var g := WithKid(t, i, id, n);
    forall j | 0 <= j < |g.kids|
      ensures KidOrdered(g.keys, g.kids, h, j, lo, hi)
    {
      assert KidOrdered(t.keys, t.kids, h, j, lo, hi);
    }
  }

  lemma KeysBelowSeparator(keys: seq<Key>, i: nat, sep: Key, lo: Option<Key>, hi: Option<Key>)
    requires Sorted(keys) && i <= |keys| && forall k :: k in keys ==> After(lo, k) && Before(k, hi)
    requires After(LowerBound(keys, i, lo), sep) && Before(sep, UpperBound(keys, i, hi))
    ensures Sorted(keys[..i] + [sep] + keys[i..])
    ensures forall k :: k in keys[..i] + [sep] + keys[i..] ==> After(lo, k) && Before(k, hi)
  {
    hide Less;
    var all := keys[..i] + [sep] + keys[i..];
    forall j | 0 <= j < i
      ensures Less(keys[j], sep)
    {
      if j < i - 1 {
        LessTransitive(keys[j], keys[i - 1], sep);
      }
    }
    forall j | i <= j < |keys|
      ensures Less(sep, keys[j])
    {
      if j > i {
        LessTransitive(sep, keys[i], keys[j]);
      }
    }
    if i > 0 && lo.Some? {
      assert keys[i - 1] in keys;
      LessTransitive(lo.value, keys[i - 1], sep);
    }
    if i < |keys| && hi.Some? {
      assert keys[i] in keys;
      LessTransitive(sep, keys[i], hi.value);
    }
    forall a, b | 0 <= a < b < |all|
      ensures Less(all[a], all[b])
    {
      assert a < i ==> all[a] == keys[a];
      assert a > i ==> all[a] == keys[a - 1];
      assert b < i ==> all[b] == keys[b];
      assert b > i ==> all[b] == keys[b - 1];
    }
  }

  lemma WithKidsOrdered(
    t: Node, h: nat, i: nat, sep: Key, leftId: PageId, rightId: PageId, left: Node, right: Node,
    lo: Option<Key>, hi: Option<Key>)
    requires Shaped(t, h) && Ordered(t, h, lo, hi) && t.Inner? && i < |t.kids|
    requires Shaped(left, h - 1) && Shaped(right, h - 1)
    requires ResultOrdered(Split(left, sep, right), h - 1, LowerBound(t.keys, i, lo), UpperBound(t.keys, i, hi))
    ensures var g := WithKids(t, i, sep, leftId, rightId, left, right);
            Shaped(g, h) && Ordered(g, h, lo, hi)
  {
    hide Less, AtMost;
    var g := WithKids(t, i, sep, leftId, rightId, left, right);
    KeysBelowSeparator(t.keys, i, sep, lo, hi);
    hide Sorted, After, Before, From, Ordered, ResultOrdered;
    forall j | 0 <= j < |g.kids|
      ensures Shaped(g.kids[j], h - 1) && KidOrdered(g.keys, g.kids, h, j, lo, hi)
    {
      WithKidsKid(t, h, i, sep, leftId, rightId, left, right, lo, hi, j);
    }
    OrderedInner(g, h, lo, hi);
  }

  lemma OrderedInner(g: Node, h: nat, lo: Option<Key>, hi: Option<Key>)
    requires g.Inner? && Shaped(g, h) && Sorted(g.keys) && forall k :: k in g.keys ==> After(lo, k) && Before(k, hi)
    requires forall j :: 0 <= j < |g.kids| ==> KidOrdered(g.keys, g.kids, h, j, lo, hi)
    ensures Ordered(g, h, lo, hi)
  {
    hide Less, AtMost;
  }

  lemma WithKidsKid(
    t: Node, h: nat, i: nat, sep: Key, leftId: PageId, rightId: PageId, left: Node, right: Node,
    lo: Option<Key>, hi: Option<Key>, j: nat)
    requires Shaped(t, h) && Ordered(t, h, lo, hi) && t.Inner? && i < |t.kids|
    requires Shaped(left, h - 1) && Shaped(right, h - 1)
    requires ResultOrdered(Split(left, sep, right), h - 1, LowerBound(t.keys, i, lo), UpperBound(t.keys, i, hi))
    requires j < |WithKids(t, i, sep, leftId, rightId, left, right).kids|
    ensures var g := WithKids(t, i, sep, leftId, rightId, left, right);
            Shaped(g.kids[j], h - 1) && KidOrdered(g.keys, g.kids, h, j, lo, hi)
  {
    hide Less, AtMost, Sorted, After, Before, From;
    var g := WithKids(t, i, sep, leftId, rightId, left, right);
    if j < i {
      assert g.kids[j] == t.kids[j] && KidOrdered(t.keys, t.kids, h, j, lo, hi);
    } else if j > i + 1 {
      assert KidOrdered(t.keys, t.kids, h, j - 1, lo, hi);
      assert g.kids[j] == t.kids[j - 1] && g.keys[j - 1] == t.keys[j - 2];
    }
  }

  lemma PartOrdered(g: Node, h: nat, from: nat, to: nat, lo: Option<Key>, hi: Option<Key>)
    requires Shaped(g, h) && Ordered(g, h, lo, hi) && g.Inner? && from < to <= |g.keys|
    ensures Shaped(Part(g, from, to), h)
    ensures Ordered(Part(g, from, to), h, LowerBound(g.keys, from, lo), UpperBound(g.keys, to, hi))
  {
    hide Less, AtMost;
    var p := Part(g, from, to);
    forall j | 0 <= j < |p.kids|
      ensures Shaped(p.kids[j], h - 1)
    {
      assert p.kids[j] == g.kids[from + j];
    }
    forall k | k in p.keys
      ensures After(LowerBound(g.keys, from, lo), k) && Before(k, UpperBound(g.keys, to, hi))
    {
      assert k in g.keys;
    }
    hide Sorted, After, Before, From;
    forall j | 0 <= j < |p.kids|
      ensures KidOrdered(p.keys, p.kids, h, j, LowerBound(g.keys, from, lo), UpperBound(g.keys, to, hi))
    {
      assert KidOrdered(g.keys, g.kids, h, from + j, lo, hi);
      assert p.kids[j] == g.kids[from + j];
    }
  }

  lemma SettledOrdered(g: Node, h: nat, pageSize: nat, lo: Option<Key>, hi: Option<Key>)
    requires Shaped(g, h) && Ordered(g, h, lo, hi) && g.Inner? && |g.keys| >= 2
    requires ResultFits(Settled(g, pageSize), h, pageSize)
    ensures ResultShaped(Settled(g, pageSize), h) && ResultOrdered(Settled(g, pageSize), h, lo, hi)
    ensures ResultEntries(Settled(g, pageSize)) == Entries(g)
  {
    hide Less, AtMost, Sized, InnerCut, KeysSize;
    FitsAreShaped(Settled(g, pageSize), h, pageSize);
    if ContentSize(ContentOf(g)) > pageSize {
      SettledParts(g, pageSize);
      var m, n := InnerCut(g.keys, pageSize), |g.keys|;
      hide Settled;
      assert Shaped(Part(g, 0, m), h) && Shaped(Part(g, m + 1, n), h);
      PartOrdered(g, h, 0, m, lo, hi);
      PartOrdered(g, h, m + 1, n, lo, hi);
      assert g.keys[m] in g.keys;
      assert g.kids == Part(g, 0, m).kids + Part(g, m + 1, n).kids;
      AllEntriesConcat(Part(g, 0, m).kids, Part(g, m + 1, n).kids);
    }
  }

  /* ---- Entries ---- */

  lemma WithKidEntries(t: Node, i: nat, id: PageId, n: Node)
    requires t.Inner? && |t.ids| == |t.kids| && i < |t.kids|
    ensures Entries(WithKid(t, i, id, n)) == AllEntries(t.kids[..i]) + Entries(n) + AllEntries(t.kids[i + 1..])
  {
    hide AllEntries;
    var g := WithKid(t, i, id, n);
    EntriesAround(g.kids, i);
    assert g.kids[..i] == t.kids[..i] && g.kids[i + 1..] == t.kids[i + 1..];
  }

  lemma WithKidsEntries(t: Node, i: nat, sep: Key, leftId: PageId, rightId: PageId, left: Node, right: Node)
    requires t.Inner? && |t.ids| == |t.kids| == |t.keys| + 1 && i < |t.kids|
    ensures Entries(WithKids(t, i, sep, leftId, rightId, left, right))
         == AllEntries(t.kids[..i]) + (Entries(left) + Entries(right)) + AllEntries(t.kids[i + 1..])
  {
    AllEntriesConcat(t.kids[..i] + [left, right], t.kids[i + 1..]);
    AllEntriesConcat(t.kids[..i], [left, right]);
    TwoEntries(left, right);
  }

  lemma TwoEntries(left: Node, right: Node)
    ensures AllEntries([left, right]) == Entries(left) + Entries(right)
  {
    hide Entries;
    assert [left, right][1..] == [right] && [right][1..] == [];
    assert AllEntries([right]) == Entries(right) + AllEntries([]);
    assert AllEntries([left, right]) == Entries(left) + AllEntries([right]);
  }

  /* ---- Insertion ---- */

  lemma {:induction false} InsertOrdered(
    t: Node, h: nat, e: Entry, pageSize: nat, w: Work, lo: Option<Key>, hi: Option<Key>)
    requires MIN_PAGE_SIZE <= pageSize && Fits(t, h, pageSize) && WithinLimits(e, pageSize)
    requires Ordered(t, h, lo, hi) && From(lo, e.key) && Before(e.key, hi)
    ensures var r := InsertInto(t, h, e, pageSize, w).0;
            ResultShaped(r, h) && ResultOrdered(r, h, lo, hi) && ResultEntries(r) == Upserted(Entries(t), e)
    decreases h
  {
    hide Less, AtMost, ChildRank, InsertLeaf, Sized, Absorb, Upserted, From, Before, AllEntries, WithinLimits;
    match t {
      case Leaf(es) =>
        LeafIsFitting(es, h, pageSize);
        InsertLeafOrdered(es, e, pageSize, lo, hi);
        InsertLeafFits(es, e, pageSize);
        FitsAreShaped(InsertLeaf(es, e, pageSize), 0, pageSize);
      case Inner(keys, ids, kids) =>
        var i := ChildRank(keys, e.key);
        CoveringChild(t, h, lo, hi, e.key);
        KidFits(t, h, i, pageSize);
        InsertFits(kids[i], h - 1, e, pageSize, w);
        InsertOrdered(kids[i], h - 1, e, pageSize, w, LowerBound(keys, i, lo), UpperBound(keys, i, hi));
        var (result, w1) := InsertInto(kids[i], h - 1, e, pageSize, w);
        AbsorbOrdered(t, h, i, result, Orphaned(w1, ids[i]), pageSize, lo, hi);
        TreeOrdered(kids[i], h - 1, LowerBound(keys, i, lo), UpperBound(keys, i, hi));
        EntriesAround(kids, i);
        UpsertInPart(AllEntries(kids[..i]), Entries(kids[i]), AllEntries(kids[i + 1..]), e);
    }
  }

  lemma AbsorbOrdered(
    t: Node, h: nat, i: nat, result: InsertResult, w: Work, pageSize: nat, lo: Option<Key>, hi: Option<Key>)
    requires MIN_PAGE_SIZE <= pageSize && Fits(t, h, pageSize) && t.Inner? && i < |t.kids| && h > 0
    requires ResultFits(result, h - 1, pageSize) && Ordered(t, h, lo, hi) && ResultShaped(result, h - 1)
    requires ResultOrdered(result, h - 1, LowerBound(t.keys, i, lo), UpperBound(t.keys, i, hi))
    ensures var r := Absorb(t, i, result, w, pageSize).0;
            && ResultShaped(r, h) && ResultOrdered(r, h, lo, hi)
            && ResultEntries(r) == AllEntries(t.kids[..i]) + ResultEntries(result) + AllEntries(t.kids[i + 1..])
  {
    hide Less, AtMost, Sized, Ordered, Settled, From, Before, After, AllEntries, Entries, Sorted;
    AbsorbFits(t, h, i, result, w, pageSize);
    match result {
      case Single(n) =>
        WithKidOrdered(t, h, i, NextId(w), n, lo, hi);
        WithKidEntries(t, i, NextId(w), n);
      case Split(l, sep, r) =>
        var rightId := NextId(Wrote(w, l));
        WithKidsOrdered(t, h, i, sep, NextId(w), rightId, l, r, lo, hi);
        WithKidsEntries(t, i, sep, NextId(w), rightId, l, r);
        SettledOrdered(WithKids(t, i, sep, NextId(w), rightId, l, r), h, pageSize, lo, hi);
    }
  }

  /** A put yields a well-formed tree at most one level higher whose map differs at exactly the key put. */
  lemma PutRefinesMap(root: Rooted, e: Entry, pageSize: nat, w: Work)
    requires MIN_PAGE_SIZE <= pageSize && WellFormed(root.tree, root.height, pageSize) && WithinLimits(e, pageSize)
    ensures var after := PutTree(root, e, pageSize, w).0;
            && WellFormed(after.tree, after.height, pageSize)
            && root.height <= after.height <= root.height + 1
            && Entries(after.tree) == Upserted(Entries(root.tree), e)
            && MapOf(Entries(after.tree)) == MapOf(Entries(root.tree))[e.key := e.value]
  {
    hide Less, AtMost, Sized, InsertInto, Upserted, MapOf, WithinLimits;
    InsertOrdered(root.tree, root.height, e, pageSize, w, None, None);
    PutFits(root, e, pageSize, w);
    var (result, w1) := InsertInto(root.tree, root.height, e, pageSize, w);
    if result.Split? {
      NewRootOrdered(result, root.height, Orphaned(w1, root.id));
    }
    TreeOrdered(root.tree, root.height, None, None);
    UpsertIsMapUpdate(Entries(root.tree), e);
  }

  lemma NewRootOrdered(result: InsertResult, h: nat, w: Work)
    requires result.Split? && ResultShaped(result, h) && ResultOrdered(result, h, None, None)
    ensures var after := NewRoot(result, h, w).0;
            && Shaped(after.tree, after.height) && Ordered(after.tree, after.height, None, None)
            && Entries(after.tree) == ResultEntries(result)
  {
    hide Less, AtMost;
    var after := NewRoot(result, h, w).0;
    var kids := after.tree.kids;
    assert forall i :: 0 <= i < |kids| ==> Shaped(kids[i], h);
    assert KidOrdered(after.tree.keys, kids, h + 1, 0, None, None);
    assert KidOrdered(after.tree.keys, kids, h + 1, 1, None, None);
    TwoEntries(result.left, result.right);
  }
}
