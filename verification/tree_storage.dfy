/** Trees as pages on disk: which disks store a tree, and that a put's images store the new one. */
module TreeStorage {
  import opened ByteStrings
  import opened PageFormat
  import opened SplitPoints
  import opened KeySearch
  import opened TreeNodes
  import opened TreeInsert
  import opened TreeStock

  type Disk = map<PageId, Bytes>

  /** A page's bytes; contents that fit are zero-padded to the page size. */
  function Image(n: Node, id: PageId, pageSize: nat): (r: Bytes)
    ensures ContentSize(ContentOf(n)) <= pageSize ==> r == PageBytes(ContentOf(n), id, pageSize)
  {
    var c := ContentOf(n);
    if ContentSize(c) <= pageSize then PageBytes(c, id, pageSize) else Unpadded(c, id)
  }

  ghost predicate Holds(d: Disk, id: PageId, n: Node, pageSize: nat) {
    id in d && ContentSize(ContentOf(n)) <= pageSize && d[id] == Image(n, id, pageSize)
  }

  /** The disk holds every page of the tree under its id. */
  ghost predicate Stored(d: Disk, id: PageId, t: Node, h: nat, pageSize: nat)
    requires Shaped(t, h)
    decreases h
  {
    Holds(d, id, t, pageSize) &&
    (t.Inner? ==> forall i :: 0 <= i < |t.kids| ==> Stored(d, t.ids[i], t.kids[i], h - 1, pageSize))
  }

  ghost predicate KidsStored(d: Disk, t: Node, h: nat, pageSize: nat)
    requires Shaped(t, h)
  {
    t.Inner? ==> forall i :: 0 <= i < |t.kids| ==> Stored(d, t.ids[i], t.kids[i], h - 1, pageSize)
  }

  ghost predicate RootStored(d: Disk, root: Rooted, pageSize: nat) {
    Shaped(root.tree, root.height) && Stored(d, root.id, root.tree, root.height, pageSize)
  }

  /** The pages in the set read the same on both disks. */
  ghost predicate SameOn(d: Disk, d': Disk, ids: multiset<PageId>) {
    forall id :: id in ids && id in d ==> id in d' && d'[id] == d[id]
  }

  /** A stored tree depends on its own pages only. */
  lemma {:induction false} StoredFrame(d: Disk, d': Disk, id: PageId, t: Node, h: nat, pageSize: nat)
    requires Shaped(t, h) && Stored(d, id, t, h, pageSize) && SameOn(d, d', multiset{id} + PagesBelow(t))
    ensures Stored(d', id, t, h, pageSize)
    decreases h
  {
    hide Image, PagesBelow;
    assert id in multiset{id} + PagesBelow(t);
    if t.Inner? {
      forall i | 0 <= i < |t.kids|
        ensures Stored(d', t.ids[i], t.kids[i], h - 1, pageSize)
      {
        SameOnKid(d, d', id, t, i);
        StoredFrame(d, d', t.ids[i], t.kids[i], h - 1, pageSize);
      }
    }
  }

  lemma SameOnKid(d: Disk, d': Disk, id: PageId, t: Node, i: nat)
    requires t.Inner? && |t.ids| == |t.kids| && i < |t.kids| && SameOn(d, d', multiset{id} + PagesBelow(t))
    ensures SameOn(d, d', multiset{t.ids[i]} + PagesBelow(t.kids[i]))
  {
    hide PagesBelow;
    KidPages(t, i);
    forall x | x in multiset{t.ids[i]} + PagesBelow(t.kids[i])
      ensures x in multiset{id} + PagesBelow(t)
    {
      assert x in PagesBelow(t);
    }
  }

  lemma KidPages(t: Node, i: nat)
    requires t.Inner? && |t.ids| == |t.kids| && i < |t.kids|
    ensures multiset{t.ids[i]} + PagesBelow(t.kids[i]) <= PagesBelow(t)
  {
    BelowAround(t.ids, t.kids, i);
    BelowInner(t);
  }

  lemma KidsFrame(d: Disk, d': Disk, t: Node, h: nat, pageSize: nat)
    requires Shaped(t, h) && KidsStored(d, t, h, pageSize) && SameOn(d, d', PagesBelow(t))
    ensures KidsStored(d', t, h, pageSize)
  {
    hide Stored, PagesBelow;
    if t.Inner? {
      forall i | 0 <= i < |t.kids|
        ensures Stored(d', t.ids[i], t.kids[i], h - 1, pageSize)
      {
        KidPages(t, i);
        assert forall x :: x in multiset{t.ids[i]} + PagesBelow(t.kids[i]) ==> x in PagesBelow(t);
        StoredFrame(d, d', t.ids[i], t.kids[i], h - 1, pageSize);
      }
    }
  }

  /* ---- Writing page images ---- */

  function Flush(d: Disk, writes: seq<PageWrite>, pageSize: nat): Disk {
    if writes == [] then d
    else
      var last := writes[|writes| - 1];
      Flush(d, writes[..|writes| - 1], pageSize)[last.id := Image(last.node, last.id, pageSize)]
  }

  lemma {:induction false} WrittenIds(writes: seq<PageWrite>, id: PageId)
    ensures id in Written(writes) <==> exists w :: w in writes && w.id == id
    decreases |writes|
  {
    if writes != [] {
      var front, last := writes[..|writes| - 1], writes[|writes| - 1];
      WrittenIds(front, id);
      assert last in writes;
      assert forall w :: w in writes <==> w in front || w == last;
    }
  }

  /** Pages that are not written stay as they are. */
  lemma {:induction false} FlushElsewhere(d: Disk, writes: seq<PageWrite>, pageSize: nat, id: PageId)
    requires id !in Written(writes)
    ensures id in Flush(d, writes, pageSize) <==> id in d
    ensures id in d ==> Flush(d, writes, pageSize)[id] == d[id]
    decreases |writes|
  {
    hide Image;
    if writes != [] {
      FlushElsewhere(d, writes[..|writes| - 1], pageSize, id);
    }
  }

  ghost predicate EachOnce(ids: multiset<PageId>) {
    forall id :: ids[id] <= 1
  }

  /** When no page is written twice, each holds what was written to it. */
  lemma {:induction false} FlushWrites(d: Disk, writes: seq<PageWrite>, pageSize: nat, w: PageWrite)
    requires EachOnce(Written(writes)) && w in writes
    ensures w.id in Flush(d, writes, pageSize) && Flush(d, writes, pageSize)[w.id] == Image(w.node, w.id, pageSize)
    decreases |writes|
  {
    hide Image;
    var front, last := writes[..|writes| - 1], writes[|writes| - 1];
    if w != last {
      assert w in front;
      WrittenIds(front, w.id);
      assert Written(writes)[last.id] == Written(front)[last.id] + 1;
      assert w.id != last.id;
      assert EachOnce(Written(front)) by {
        forall id
          ensures Written(front)[id] <= 1
        {
          assert Written(front)[id] <= Written(writes)[id];
        }
      }
      FlushWrites(d, front, pageSize, w);
    }
  }

  ghost predicate ImagesFit(writes: seq<PageWrite>, pageSize: nat) {
    forall w :: w in writes ==> ContentSize(ContentOf(w.node)) <= pageSize
  }

  /** The disk holds every buffered image. */
  ghost predicate Carries(d: Disk, writes: seq<PageWrite>, pageSize: nat) {
    forall w :: w in writes ==> Holds(d, w.id, w.node, pageSize)
  }

  lemma FlushCarries(d: Disk, writes: seq<PageWrite>, pageSize: nat)
    requires EachOnce(Written(writes)) && ImagesFit(writes, pageSize)
    ensures Carries(Flush(d, writes, pageSize), writes, pageSize)
  {
    hide Flush, Image, Written, EachOnce;
    forall w | w in writes
      ensures Holds(Flush(d, writes, pageSize), w.id, w.node, pageSize)
    {
      FlushWrites(d, writes, pageSize, w);
    }
  }

  /* ---- Every image a put buffers fits its page ---- */

  lemma FitsItsPage(t: Node, h: nat, pageSize: nat)
    requires Fits(t, h, pageSize)
    ensures ContentSize(ContentOf(t)) <= pageSize
  {
  }

  lemma WroteFits(w: Work, n: Node, h: nat, pageSize: nat)
    requires ImagesFit(w.writes, pageSize) && Fits(n, h, pageSize)
    ensures ImagesFit(Wrote(w, n).writes, pageSize)
  {
    hide ContentSize, Fits;
    FitsItsPage(n, h, pageSize);
  }

  lemma AbsorbImagesFit(t: Node, h: nat, i: nat, result: InsertResult, w: Work, pageSize: nat)
    requires Shaped(t, h) && t.Inner? && i < |t.kids| && h > 0
    requires ResultFits(result, h - 1, pageSize) && ImagesFit(w.writes, pageSize)
    ensures ImagesFit(Absorb(t, i, result, w, pageSize).1.writes, pageSize)
  {
    hide Settled, Fits, ImagesFit, Wrote;
    match result {
      case Single(n) => WroteFits(w, n, h - 1, pageSize);
      case Split(l, sep, r) =>
        WroteFits(w, l, h - 1, pageSize);
        WroteFits(Wrote(w, l), r, h - 1, pageSize);
    }
  }

  lemma {:induction false} InsertImagesFit(t: Node, h: nat, e: Entry, pageSize: nat, w: Work)
    requires MIN_PAGE_SIZE <= pageSize && Fits(t, h, pageSize) && WithinLimits(e, pageSize)
    requires ImagesFit(w.writes, pageSize)
    ensures ImagesFit(InsertInto(t, h, e, pageSize, w).1.writes, pageSize)
    decreases h
  {
    hide ChildRank, InsertLeaf, Sized, Absorb, ImagesFit, WithinLimits, ResultFits;
    if t.Inner? {
      var i := ChildRank(t.keys, e.key);
      KidFits(t, h, i, pageSize);
      InsertImagesFit(t.kids[i], h - 1, e, pageSize, w);
      InsertFits(t.kids[i], h - 1, e, pageSize, w);
      var (result, w1) := InsertInto(t.kids[i], h - 1, e, pageSize, w);
      AbsorbImagesFit(t, h, i, result, Orphaned(w1, t.ids[i]), pageSize);
    }
  }

  lemma PutImagesFit(root: Rooted, e: Entry, pageSize: nat, w: Work)
    requires MIN_PAGE_SIZE <= pageSize && Fits(root.tree, root.height, pageSize) && WithinLimits(e, pageSize)
    requires ImagesFit(w.writes, pageSize)
    ensures ImagesFit(PutTree(root, e, pageSize, w).1.writes, pageSize)
  {
    hide InsertInto, Sized, ImagesFit, Wrote, WithinLimits;
    var h := root.height;
    InsertImagesFit(root.tree, h, e, pageSize, w);
    InsertFits(root.tree, h, e, pageSize, w);
    var (result, w1) := InsertInto(root.tree, h, e, pageSize, w);
    var w2 := Orphaned(w1, root.id);
    match result {
      case Single(n) => WroteFits(w2, n, h, pageSize);
      case Split(l, sep, r) =>
        var w3 := Wrote(w2, l);
        WroteFits(w2, l, h, pageSize);
        WroteFits(w3, r, h, pageSize);
        NewRootFits(result, h, w2, pageSize);
        WroteFits(Wrote(w3, r), NewRoot(result, h, w2).0.tree, h + 1, pageSize);
    }
  }

  /* ---- The new tree is stored ---- */

  ghost predicate ResultKidsStored(d: Disk, r: InsertResult, h: nat, pageSize: nat) {
    match r
    case Single(n) => Shaped(n, h) && KidsStored(d, n, h, pageSize)
    case Split(left, _, right) =>
      && Shaped(left, h) && KidsStored(d, left, h, pageSize)
      && Shaped(right, h) && KidsStored(d, right, h, pageSize)
  }

  lemma WithKidStored(d: Disk, t: Node, h: nat, i: nat, id: PageId, n: Node, pageSize: nat)
    requires Shaped(t, h) && t.Inner? && i < |t.kids| && Shaped(n, h - 1)
    requires KidsStored(d, t, h, pageSize) && Stored(d, id, n, h - 1, pageSize)
    ensures Shaped(WithKid(t, i, id, n), h) && KidsStored(d, WithKid(t, i, id, n), h, pageSize)
  {
  }

  lemma WithKidsStored(
    d: Disk, t: Node, h: nat, i: nat, sep: Key, leftId: PageId, rightId: PageId, left: Node, right: Node, pageSize: nat)
    requires Shaped(t, h) && t.Inner? && i < |t.kids| && Shaped(left, h - 1) && Shaped(right, h - 1)
    requires KidsStored(d, t, h, pageSize)
    requires Stored(d, leftId, left, h - 1, pageSize) && Stored(d, rightId, right, h - 1, pageSize)
    ensures var g := WithKids(t, i, sep, leftId, rightId, left, right);
            Shaped(g, h) && KidsStored(d, g, h, pageSize)
  {
    hide Stored;
    var g := WithKids(t, i, sep, leftId, rightId, left, right);
    forall j | 0 <= j < |g.kids|
      ensures Shaped(g.kids[j], h - 1) && Stored(d, g.ids[j], g.kids[j], h - 1, pageSize)
    {
      assert j < i ==> g.kids[j] == t.kids[j] && g.ids[j] == t.ids[j];
      assert j > i + 1 ==> g.kids[j] == t.kids[j - 1] && g.ids[j] == t.ids[j - 1];
    }
  }

  lemma SettledStored(d: Disk, g: Node, h: nat, pageSize: nat)
    requires Shaped(g, h) && g.Inner? && |g.keys| >= 2 && KidsStored(d, g, h, pageSize)
    requires ResultFits(Settled(g, pageSize), h, pageSize)
    ensures ResultKidsStored(d, Settled(g, pageSize), h, pageSize)
  {
    hide Stored, Sized;
    if ContentSize(ContentOf(g)) > pageSize {
      SettledParts(g, pageSize);
      var m, n := InnerCut(g.keys, pageSize), |g.keys|;
      hide Settled, InnerCut;
      PartStored(d, g, h, 0, m, pageSize);
      PartStored(d, g, h, m + 1, n, pageSize);
    }
  }

  lemma PartStored(d: Disk, g: Node, h: nat, from: nat, to: nat, pageSize: nat)
    requires Shaped(g, h) && g.Inner? && KidsStored(d, g, h, pageSize) && from <= to <= |g.keys|
    requires Shaped(Part(g, from, to), h)
    ensures KidsStored(d, Part(g, from, to), h, pageSize)
  {
    hide Stored;
    var p := Part(g, from, to);
    forall j | 0 <= j < |p.kids|
      ensures Stored(d, p.ids[j], p.kids[j], h - 1, pageSize)
    {
      assert p.kids[j] == g.kids[from + j] && p.ids[j] == g.ids[from + j];
    }
  }

  lemma WholeStored(d: Disk, id: PageId, n: Node, h: nat, pageSize: nat)
    requires Shaped(n, h) && Holds(d, id, n, pageSize) && KidsStored(d, n, h, pageSize)
    ensures Stored(d, id, n, h, pageSize)
  {
  }

  lemma AbsorbStored(d: Disk, t: Node, h: nat, i: nat, result: InsertResult, w: Work, pageSize: nat)
    requires MIN_PAGE_SIZE <= pageSize && Fits(t, h, pageSize) && t.Inner? && i < |t.kids| && h > 0
    requires ResultFits(result, h - 1, pageSize) && ResultKidsStored(d, result, h - 1, pageSize)
    requires KidsStored(d, t, h, pageSize)
    requires Carries(d, Absorb(t, i, result, w, pageSize).1.writes, pageSize)
    ensures ResultKidsStored(d, Absorb(t, i, result, w, pageSize).0, h, pageSize)
  {
    hide Sized, Stored, Settled, Holds, KidsStored;
    AbsorbFits(t, h, i, result, w, pageSize);
    match result {
      case Single(n) =>
        assert PageWrite(NextId(w), n) in Wrote(w, n).writes;
        WholeStored(d, NextId(w), n, h - 1, pageSize);
        WithKidStored(d, t, h, i, NextId(w), n, pageSize);
      case Split(l, sep, r) =>
        var w1 := Wrote(w, l);
        assert PageWrite(NextId(w), l) in Wrote(w1, r).writes && PageWrite(NextId(w1), r) in Wrote(w1, r).writes;
        WholeStored(d, NextId(w), l, h - 1, pageSize);
        WholeStored(d, NextId(w1), r, h - 1, pageSize);
        WithKidsStored(d, t, h, i, sep, NextId(w), NextId(w1), l, r, pageSize);
        SettledStored(d, WithKids(t, i, sep, NextId(w), NextId(w1), l, r), h, pageSize);
    }
  }

  /** On any disk that kept the old pages and took the images, the result's children are stored. */
  lemma {:induction false} InsertStored(d: Disk, d': Disk, t: Node, h: nat, e: Entry, pageSize: nat, w: Work)
    requires MIN_PAGE_SIZE <= pageSize && Fits(t, h, pageSize) && WithinLimits(e, pageSize)
    requires KidsStored(d, t, h, pageSize) && SameOn(d, d', PagesBelow(t))
    requires Carries(d', InsertInto(t, h, e, pageSize, w).1.writes, pageSize)
    ensures ResultKidsStored(d', InsertInto(t, h, e, pageSize, w).0, h, pageSize)
    decreases h
  {
    hide ChildRank, InsertLeaf, Sized, Absorb, PagesBelow, WithinLimits, Stored, Holds;
    InsertFits(t, h, e, pageSize, w);
    if t.Inner? {
      var i := ChildRank(t.keys, e.key);
      KidFits(t, h, i, pageSize);
      KidsFrame(d, d', t, h, pageSize);
      InsertFits(t.kids[i], h - 1, e, pageSize, w);
      var (result, w1) := InsertInto(t.kids[i], h - 1, e, pageSize, w);
      var w2 := Orphaned(w1, t.ids[i]);
      KidPages(t, i);
      assert forall x :: x in PagesBelow(t.kids[i]) ==> x in multiset{t.ids[i]} + PagesBelow(t.kids[i]);
      KidOfStored(d, t, h, i, pageSize);
      AbsorbKeepsWrites(t, h, i, result, w2, pageSize);
      InsertStored(d, d', t.kids[i], h - 1, e, pageSize, w);
      AbsorbStored(d', t, h, i, result, w2, pageSize);
    } else {
      LeafResultStored(d', t, h, e, pageSize);
    }
  }

  lemma LeafResultStored(d: Disk, t: Node, h: nat, e: Entry, pageSize: nat)
    requires t.Leaf? && Shaped(t, h)
    ensures ResultKidsStored(d, InsertLeaf(t.entries, e, pageSize), h, pageSize)
  {
    hide Upserted, LeafCut, EntriesSize;
  }

  lemma KidOfStored(d: Disk, t: Node, h: nat, i: nat, pageSize: nat)
    requires Shaped(t, h) && t.Inner? && i < |t.kids| && KidsStored(d, t, h, pageSize)
    ensures KidsStored(d, t.kids[i], h - 1, pageSize) && Holds(d, t.ids[i], t.kids[i], pageSize)
  {
    assert Stored(d, t.ids[i], t.kids[i], h - 1, pageSize);
  }

  lemma AbsorbKeepsWrites(t: Node, h: nat, i: nat, result: InsertResult, w: Work, pageSize: nat)
    requires Shaped(t, h) && t.Inner? && i < |t.kids| && h > 0
    ensures forall x :: x in w.writes ==> x in Absorb(t, i, result, w, pageSize).1.writes
  {
    hide Settled;
  }

  /** After all images are written, the new tree is stored; the pages of the old one are untouched. */
  lemma PutStored(d: Disk, root: Rooted, e: Entry, pageSize: nat, w: Work)
    requires MIN_PAGE_SIZE <= pageSize && Fits(root.tree, root.height, pageSize) && WithinLimits(e, pageSize)
    requires RootStored(d, root, pageSize) && w.writes == []
    requires var writes := PutTree(root, e, pageSize, w).1.writes;
             EachOnce(Written(writes)) && Written(writes) !! PagesOf(root)
    ensures var (after, w') := PutTree(root, e, pageSize, w);
            RootStored(Flush(d, w'.writes, pageSize), after, pageSize)
  {
    hide InsertInto, Sized, PagesBelow, WithinLimits, Stored, Holds, EachOnce, Written, Image, Flush, ImagesFit,
         KidsStored;
    var h := root.height;
    var (after, w') := PutTree(root, e, pageSize, w);
    var d' := Flush(d, w'.writes, pageSize);
    assert ImagesFit(w.writes, pageSize) by { NoImages(pageSize); }
    PutImagesFit(root, e, pageSize, w);
    FlushCarries(d, w'.writes, pageSize);
    forall id | id in PagesOf(root)
      ensures id in d ==> id in d' && d'[id] == d[id]
    {
      FlushElsewhere(d, w'.writes, pageSize, id);
    }
    RootKids(d, root, pageSize);
    InsertFits(root.tree, h, e, pageSize, w);
    PutFits(root, e, pageSize, w);
    var (result, w1) := InsertInto(root.tree, h, e, pageSize, w);
    var w2 := Orphaned(w1, root.id);
    NewRootKeepsWrites(result, h, w2);
    InsertStored(d, d', root.tree, h, e, pageSize, w);
    NewRootStored(d', result, h, w2, pageSize);
  }

  lemma NoImages(pageSize: nat)
    ensures ImagesFit([], pageSize)
  {
  }

  lemma RootKids(d: Disk, root: Rooted, pageSize: nat)
    requires RootStored(d, root, pageSize)
    ensures KidsStored(d, root.tree, root.height, pageSize) && Holds(d, root.id, root.tree, pageSize)
  {
  }

  lemma NewRootKeepsWrites(result: InsertResult, h: nat, w: Work)
    ensures forall x :: x in w.writes ==> x in NewRoot(result, h, w).1.writes
  {
  }

  lemma NewRootStored(d: Disk, result: InsertResult, h: nat, w: Work, pageSize: nat)
    requires ResultKidsStored(d, result, h, pageSize)
    requires Carries(d, NewRoot(result, h, w).1.writes, pageSize)
    ensures RootStored(d, NewRoot(result, h, w).0, pageSize)
  {
    hide Stored, Holds, KidsStored;
    match result {
      case Single(n) =>
        assert PageWrite(NextId(w), n) in Wrote(w, n).writes;
        WholeStored(d, NextId(w), n, h, pageSize);
      case Split(l, sep, r) =>
        var w1, w2 := Wrote(w, l), Wrote(Wrote(w, l), r);
        var top := Inner([sep], [NextId(w), NextId(w1)], [l, r]);
        var all := Wrote(w2, top).writes;
        assert PageWrite(NextId(w), l) in all && PageWrite(NextId(w1), r) in all && PageWrite(NextId(w2), top) in all;
        WholeStored(d, NextId(w), l, h, pageSize);
        WholeStored(d, NextId(w1), r, h, pageSize);
        TopStored(d, top, h, pageSize);
        WholeStored(d, NextId(w2), top, h + 1, pageSize);
    }
  }

  lemma TopStored(d: Disk, top: Node, h: nat, pageSize: nat)
    requires top.Inner? && |top.keys| == 1 && |top.ids| == |top.kids| == 2
    requires Shaped(top.kids[0], h) && Shaped(top.kids[1], h)
    requires Stored(d, top.ids[0], top.kids[0], h, pageSize) && Stored(d, top.ids[1], top.kids[1], h, pageSize)
    ensures Shaped(top, h + 1) && KidsStored(d, top, h + 1, pageSize)
  {
    hide Stored;
    forall j | 0 <= j < |top.kids|
      ensures Shaped(top.kids[j], h) && Stored(d, top.ids[j], top.kids[j], h, pageSize)
    {
      assert j == 0 || j == 1;
    }
  }

  lemma NextImage(base: Disk, writes: seq<PageWrite>, k: nat, pageSize: nat)
    requires k < |writes|
    ensures Flush(base, writes[..k + 1], pageSize)
         == Flush(base, writes[..k], pageSize)[writes[k].id := Image(writes[k].node, writes[k].id, pageSize)]
    ensures writes[k].id in Written(writes)
  {
    hide Image;
    assert writes[..k + 1][..k] == writes[..k] && writes[..k + 1][k] == writes[k];
    assert writes[k] in writes;
    WrittenIds(writes, writes[k].id);
  }
}
