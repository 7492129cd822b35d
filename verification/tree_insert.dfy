/**
 Path-copying insertion as a function: the copied path, the pages it takes from the allocator,
 the page images it buffers and the pages it orphans. The lemmas say what a put does to the map,
 to the shape and order of the tree, and to the stock of pages.
 */
module TreeInsert {
  import opened PageFormat
  import opened SplitPoints
  import opened KeySearch
  import opened TreeNodes

  /** A buffered page image. */
  datatype PageWrite = PageWrite(id: PageId, node: Node)

  /** What a write transaction changes before it commits. */
  datatype Work = Work(free: seq<PageId>, next: nat, writes: seq<PageWrite>, freed: seq<PageId>)

  datatype InsertResult =
    | Single(node: Node)
    | Split(left: Node, sep: Key, right: Node)

  /* ---- The allocator ---- */

  /** Reuse takes the last free page; otherwise the file grows. */
  function NextId(w: Work): PageId {
    if w.free != [] then w.free[|w.free| - 1] else w.next
  }

  function Allocated(w: Work): Work {
    if w.free != [] then w.(free := w.free[..|w.free| - 1]) else w.(next := w.next + 1)
  }

  function Wrote(w: Work, n: Node): Work {
    Allocated(w).(writes := w.writes + [PageWrite(NextId(w), n)])
  }

  function Orphaned(w: Work, id: PageId): Work {
    w.(freed := w.freed + [id])
  }

  /* ---- Insertion ---- */

  function InsertLeaf(es: seq<Entry>, e: Entry, pageSize: nat): InsertResult {
    var built := Upserted(es, e);
    if NODE_HEADER + EntriesSize(built) <= pageSize then Single(Leaf(built))
    else
      var m := LeafCut(built, pageSize);
      var right := built[m..];
      Split(Leaf(built[..m]), if right == [] then [] else right[0].key, Leaf(right))
  }

  function WithKid(t: Node, i: nat, id: PageId, n: Node): Node
    requires t.Inner? && |t.ids| == |t.kids| && i < |t.kids|
  {
    Inner(t.keys, t.ids[i := id], t.kids[i := n])
  }

  function WithKids(t: Node, i: nat, sep: Key, leftId: PageId, rightId: PageId, left: Node, right: Node): Node
    requires t.Inner? && |t.ids| == |t.kids| == |t.keys| + 1 && i < |t.kids|
  {
    Inner(t.keys[..i] + [sep] + t.keys[i..],
          t.ids[..i] + [leftId, rightId] + t.ids[i + 1..],
          t.kids[..i] + [left, right] + t.kids[i + 1..])
  }

  /** A grown internal page, or its halves around the promoted key. */
  function Settled(t: Node, pageSize: nat): InsertResult
    requires t.Inner? && |t.keys| >= 2 && |t.ids| == |t.kids| == |t.keys| + 1
  {
    if ContentSize(ContentOf(t)) <= pageSize then Single(t)
    else
      var m := InnerCut(t.keys, pageSize);
      Split(Inner(t.keys[..m], t.ids[..m + 1], t.kids[..m + 1]),
            t.keys[m],
            Inner(t.keys[m + 1..], t.ids[m + 1..], t.kids[m + 1..]))
  }

  function InsertInto(t: Node, h: nat, e: Entry, pageSize: nat, w: Work): (InsertResult, Work)
    requires Shaped(t, h)
    decreases h
  {
    match t
    case Leaf(es) => (InsertLeaf(es, e, pageSize), w)
    case Inner(keys, ids, kids) =>
      var i := ChildRank(keys, e.key);
      var (result, w1) := InsertInto(kids[i], h - 1, e, pageSize, w);
      Absorb(t, i, result, Orphaned(w1, ids[i]), pageSize)
  }

  /** The parent's part: write the new child or children and point at them. */
  function Absorb(t: Node, i: nat, result: InsertResult, w: Work, pageSize: nat): (InsertResult, Work)
    requires t.Inner? && |t.keys| >= 1 && |t.ids| == |t.kids| == |t.keys| + 1 && i < |t.kids|
  {
    match result
    case Single(n) => (Single(WithKid(t, i, NextId(w), n)), Wrote(w, n))
    case Split(l, sep, r) =>
      var w1 := Wrote(w, l);
      (Settled(WithKids(t, i, sep, NextId(w), NextId(w1), l, r), pageSize), Wrote(w1, r))
  }

  /** A published tree: its root page, its value and its height. */
  datatype Rooted = Rooted(id: PageId, tree: Node, height: nat)

  /** The whole put: insert, orphan the old root, and write the new one, one level higher if it split. */
  function PutTree(root: Rooted, e: Entry, pageSize: nat, w: Work): (Rooted, Work)
    requires Shaped(root.tree, root.height)
  {
    var (result, w1) := InsertInto(root.tree, root.height, e, pageSize, w);
    NewRoot(result, root.height, Orphaned(w1, root.id))
  }

  function NewRoot(result: InsertResult, height: nat, w: Work): (Rooted, Work) {
    match result
    case Single(n) => (Rooted(NextId(w), n, height), Wrote(w, n))
    case Split(l, sep, r) =>
      var w1 := Wrote(w, l);
      var w2 := Wrote(w1, r);
      var top := Inner([sep], [NextId(w), NextId(w1)], [l, r]);
      (Rooted(NextId(w2), top, height + 1), Wrote(w2, top))
  }

  /* ---- Shape and size ---- */

  ghost predicate Fits(t: Node, h: nat, pageSize: nat) {
    Shaped(t, h) && Sized(t, h, pageSize)
  }

  ghost predicate ResultFits(r: InsertResult, h: nat, pageSize: nat) {
    match r
    case Single(n) => Fits(n, h, pageSize)
    case Split(left, sep, right) =>
      Fits(left, h, pageSize) && Fits(right, h, pageSize) && |sep| <= MaxKvSize(pageSize)
  }

  lemma UpsertedFits(es: seq<Entry>, e: Entry, pageSize: nat)
    requires MIN_PAGE_SIZE <= pageSize && LeafFits(es, pageSize) && WithinLimits(e, pageSize)
    ensures LeafFits(Upserted(es, e), pageSize) || Overgrown(Upserted(es, e), pageSize)
  {
    PutFitsOrOvergrows(es, Search(es, e.key).idx, e, pageSize);
  }

  lemma InsertLeafFits(es: seq<Entry>, e: Entry, pageSize: nat)
    requires MIN_PAGE_SIZE <= pageSize && LeafFits(es, pageSize) && WithinLimits(e, pageSize)
    ensures ResultFits(InsertLeaf(es, e, pageSize), 0, pageSize)
    ensures var r := InsertLeaf(es, e, pageSize);
            r.Split? ==> r.left.entries != [] && r.right.entries != [] && r.sep == r.right.entries[0].key
  {
    hide Upserted, EntriesSize;
    UpsertedFits(es, e, pageSize);
    var built := Upserted(es, e);
    if NODE_HEADER + EntriesSize(built) > pageSize {
      LeafSplitSucceeds(built, pageSize);
      var m := LeafCut(built, pageSize);
      assert built[m..][0] == built[m] && built[m] in built;
    }
  }

  lemma WithKidFits(t: Node, h: nat, i: nat, id: PageId, n: Node, pageSize: nat)
    requires Fits(t, h, pageSize) && t.Inner? && i < |t.kids| && Fits(n, h - 1, pageSize)
    ensures Fits(WithKid(t, i, id, n), h, pageSize)
  {
  }

  /** Replacing a child by two keeps the children fitting, whatever the page itself has grown to. */
  lemma WithKidsShaped(
    t: Node, h: nat, i: nat, sep: Key, leftId: PageId, rightId: PageId, left: Node, right: Node, pageSize: nat)
    requires Fits(t, h, pageSize) && t.Inner? && i < |t.kids|
    requires Fits(left, h - 1, pageSize) && Fits(right, h - 1, pageSize)
    ensures var g := WithKids(t, i, sep, leftId, rightId, left, right);
            Shaped(g, h) && forall j :: 0 <= j < |g.kids| ==> Fits(g.kids[j], h - 1, pageSize)
  {
    hide Sized;
    var g := WithKids(t, i, sep, leftId, rightId, left, right);
    forall j | 0 <= j < |g.kids|
      ensures Fits(g.kids[j], h - 1, pageSize)
    {
      assert j < i ==> g.kids[j] == t.kids[j];
      assert j > i + 1 ==> g.kids[j] == t.kids[j - 1];
      KidFits(t, h, if j <= i then j else j - 1, pageSize);
    }
  }

  lemma KidFits(t: Node, h: nat, i: nat, pageSize: nat)
    requires Fits(t, h, pageSize) && t.Inner? && i < |t.kids|
    ensures h > 0 && Fits(t.kids[i], h - 1, pageSize) && InnerFits(t.keys, pageSize)
  {
  }

  lemma SettledFits(g: Node, h: nat, pageSize: nat)
    requires MIN_PAGE_SIZE <= pageSize && g.Inner? && |g.keys| >= 2 && Shaped(g, h)
    requires forall j :: 0 <= j < |g.kids| ==> Fits(g.kids[j], h - 1, pageSize)
    requires InnerFits(g.keys, pageSize) || OvergrownInner(g.keys, pageSize)
    ensures ResultFits(Settled(g, pageSize), h, pageSize)
  {
    hide KeysSize, MaxKvSize, InnerCut, Sized;
    if ContentSize(ContentOf(g)) > pageSize {
      InnerSplitSucceeds(g.keys, pageSize);
      var m := InnerCut(g.keys, pageSize);
      assert g.keys[m] in g.keys;
      SettledParts(g, pageSize);
      hide Settled, Fits;
      PartFits(g, h, 0, m, pageSize);
      PartFits(g, h, m + 1, |g.keys|, pageSize);
    } else {
      WholeFits(g, h, pageSize);
    }
  }

  lemma WholeFits(g: Node, h: nat, pageSize: nat)
    requires g.Inner? && Shaped(g, h) && KeysWithinLimits(g.keys, pageSize) && ContentSize(ContentOf(g)) <= pageSize
    requires forall j :: 0 <= j < |g.kids| ==> Fits(g.kids[j], h - 1, pageSize)
    ensures Fits(g, h, pageSize)
  {
    hide KeysSize, MaxKvSize;
  }

  function Part(g: Node, from: nat, to: nat): Node
    requires g.Inner? && |g.ids| == |g.kids| == |g.keys| + 1 && from <= to <= |g.keys|
  {
    Inner(g.keys[from..to], g.ids[from..to + 1], g.kids[from..to + 1])
  }

  /** The halves of a split page are stretches of it around the promoted key. */
  lemma SettledParts(g: Node, pageSize: nat)
    requires g.Inner? && |g.keys| >= 2 && |g.ids| == |g.kids| == |g.keys| + 1
    ensures var m, n := InnerCut(g.keys, pageSize), |g.keys|;
            && g.keys[0..m] == g.keys[..m] && g.keys[m + 1..n] == g.keys[m + 1..]
            && (ContentSize(ContentOf(g)) > pageSize ==>
                  Settled(g, pageSize) == Split(Part(g, 0, m), g.keys[m], Part(g, m + 1, n)))
  {
    hide InnerCut;
    var m, n := InnerCut(g.keys, pageSize), |g.keys|;
    assert g.ids[0..m + 1] == g.ids[..m + 1] && g.ids[m + 1..n + 1] == g.ids[m + 1..];
    assert g.kids[0..m + 1] == g.kids[..m + 1] && g.kids[m + 1..n + 1] == g.kids[m + 1..];
  }

  lemma PartFits(g: Node, h: nat, from: nat, to: nat, pageSize: nat)
    requires g.Inner? && Shaped(g, h) && from < to <= |g.keys|
    requires forall j :: 0 <= j < |g.kids| ==> Fits(g.kids[j], h - 1, pageSize)
    requires KeysWithinLimits(g.keys, pageSize) && InnerSize(g.keys[from..to]) <= pageSize
    ensures Fits(Part(g, from, to), h, pageSize)
  {
    hide KeysSize, MaxKvSize;
    var p := Part(g, from, to);
    forall j | 0 <= j < |p.kids|
      ensures Fits(p.kids[j], h - 1, pageSize)
    {
      assert p.kids[j] == g.kids[from + j];
    }
  }

  /** Insertion keeps every page within its size and all leaves at one depth. */
  lemma {:induction false} InsertFits(t: Node, h: nat, e: Entry, pageSize: nat, w: Work)
    requires MIN_PAGE_SIZE <= pageSize && Fits(t, h, pageSize) && WithinLimits(e, pageSize)
    ensures ResultFits(InsertInto(t, h, e, pageSize, w).0, h, pageSize)
    decreases h
  {
    hide ChildRank, InsertLeaf, Sized, OvergrownInner, WithinLimits;
    match t {
      case Leaf(es) => LeafIsFitting(es, h, pageSize); InsertLeafFits(es, e, pageSize);
      case Inner(keys, ids, kids) =>
        var i := ChildRank(keys, e.key);
        KidFits(t, h, i, pageSize);
        InsertFits(kids[i], h - 1, e, pageSize, w);
        var (result, w1) := InsertInto(kids[i], h - 1, e, pageSize, w);
        AbsorbFits(t, h, i, result, Orphaned(w1, ids[i]), pageSize);
    }
  }

  lemma LeafIsFitting(es: seq<Entry>, h: nat, pageSize: nat)
    requires Fits(Leaf(es), h, pageSize)
    ensures LeafFits(es, pageSize) && h == 0
  {
  }

  lemma AbsorbFits(t: Node, h: nat, i: nat, result: InsertResult, w: Work, pageSize: nat)
    requires MIN_PAGE_SIZE <= pageSize && Fits(t, h, pageSize) && t.Inner? && i < |t.kids|
    requires h > 0 && ResultFits(result, h - 1, pageSize)
    ensures ResultFits(Absorb(t, i, result, w, pageSize).0, h, pageSize)
  {
    hide Sized, Settled, OvergrownInner, InnerFits, MaxKvSize;
    KidFits(t, h, i, pageSize);
    match result {
      case Single(n) => WithKidFits(t, h, i, NextId(w), n, pageSize);
      case Split(l, sep, r) =>
        var g := WithKids(t, i, sep, NextId(w), NextId(Wrote(w, l)), l, r);
        WithKidsShaped(t, h, i, sep, NextId(w), NextId(Wrote(w, l)), l, r, pageSize);
        AbsorbFitsOrOvergrows(t.keys, i, sep, pageSize);
        SettledFits(g, h, pageSize);
    }
  }

  /** The new tree fits and is at most one level higher. */
  lemma PutFits(root: Rooted, e: Entry, pageSize: nat, w: Work)
    requires MIN_PAGE_SIZE <= pageSize && Fits(root.tree, root.height, pageSize) && WithinLimits(e, pageSize)
    ensures var after := PutTree(root, e, pageSize, w).0;
            Fits(after.tree, after.height, pageSize) && root.height <= after.height <= root.height + 1
  {
    hide Sized, InsertInto;
    InsertFits(root.tree, root.height, e, pageSize, w);
    var (result, w1) := InsertInto(root.tree, root.height, e, pageSize, w);
    if result.Split? {
      NewRootFits(result, root.height, Orphaned(w1, root.id), pageSize);
    }
  }

  lemma NewRootFits(result: InsertResult, h: nat, w: Work, pageSize: nat)
    requires MIN_PAGE_SIZE <= pageSize && ResultFits(result, h, pageSize) && result.Split?
    ensures var after := NewRoot(result, h, w).0;
            Fits(after.tree, after.height, pageSize) && after.height == h + 1
  {
    TwoSeparatorsFit([result.sep], pageSize);
  }
}
