/** Insertion and lookup as the source runs them: decode a page, descend, rebuild the path, commit. */
module Trees {
  import opened Wrappers
  import opened ByteStrings
  import opened PageFormat
  import opened SplitPoints
  import opened KeySearch
  import opened LeafNodes
  import opened InternalNodes
  import opened TreeNodes
  import opened TreeInsert
  import opened TreeOrder
  import opened TreeStock
  import opened TreeStorage
  import opened StoreSpec
  import opened StoreState
  import opened StorePut
  import opened Stores

  /** One rebuilt page, or two around a separator. */
  datatype Rebuilt =
    | One(page: Page)
    | Two(left: Page, sep: Key, right: Page)

  function RebuiltObjects(r: Rebuilt): set<object> {
    match r
    case One(p) => Objects(p)
    case Two(l, _, p) => Objects(l) + Objects(p)
  }

  ghost predicate Rebuilds(r: Rebuilt, spec: InsertResult)
    reads RebuiltObjects(r)
  {
    match r
    case One(p) => spec.Single? && Represents(p, spec.node)
    case Two(l, sep, p) => spec.Split? && Represents(l, spec.left) && sep == spec.sep && Represents(p, spec.right)
  }

  datatype PutResult = Done | EntryTooLarge(len: nat, max: nat)

  /** The limit on one entry, checked before anything is read or written. */
  function CheckLimits(pageSize: nat, key: Key, val: Value): (r: Option<PutResult>)
    ensures r == None <==> WithinLimits(Entry(key, val), pageSize)
  {
    var max := MaxKvSize(pageSize);
    var len := |key| + |val|;
    if len > max then Some(EntryTooLarge(len, max)) else None
  }

  /* ---- Leaves ---- */

  lemma GrownLeafMeasurable(es: seq<Entry>, e: Entry, pageSize: nat)
    requires PageSizeOk(pageSize) && LeafFits(es, pageSize) && WithinLimits(e, pageSize)
    ensures EntriesSize(es) + EntrySize(e) <= U16_MAX
  {
    hide EntriesSize;
  }

  method InsertLeafPage(node: LeafNode, key: Key, val: Value, pageSize: nat) returns (r: Rebuilt)
    requires node.Valid() && SortedEntries(node.contents)
    requires PageSizeOk(pageSize) && LeafFits(node.contents, pageSize) && WithinLimits(Entry(key, val), pageSize)
    ensures fresh(RebuiltObjects(r)) && Rebuilds(r, InsertLeaf(node.contents, Entry(key, val), pageSize))
  {
    hide LeafNode.Valid, EntriesSize, SortedEntries, LeafFits, WithinLimits, LeafCut, Overgrown, MaxKvSize;
    ghost var es, e := node.contents, Entry(key, val);
    GrownLeafMeasurable(es, e, pageSize);
    UpsertedSorted(es, e);
    UpsertedFits(es, e, pageSize);
    InsertLeafFits(es, e, pageSize);
    var found := LeafSearch(node, key);
    hide Search;
    var built: LeafNode;
    if found.Ok? {
      built := LeafUpdate(node, found.idx, key, val);
    } else {
      built := LeafInsert(node, found.idx, key, val);
    }
    assert built.contents == Upserted(es, e);
    hide Upserted;
    if built.NBytes() <= pageSize {
      r := One(LeafPage(built));
    } else {
      NotFitting(built.contents, pageSize);
      LeafSplitSucceeds(built.contents, pageSize);
      var left, right := LeafSplitBySize(built, pageSize);
      var sep := right.GetKey(0);
      r := Two(LeafPage(left), sep, LeafPage(right));
    }
  }

  lemma NotFitting(es: seq<Entry>, pageSize: nat)
    requires NODE_HEADER + EntriesSize(es) > pageSize
    ensures !LeafFits(es, pageSize)
  {
  }

  /* ---- Internal pages ---- */

  /** Allocates a page for a rebuilt child and buffers its image. */
  method StoreChild(txn: WriteTxn, page: Page, ghost n: Node) returns (id: PageId)
    requires txn.Valid() && Represents(page, n) && ContentSize(ContentOf(n)) <= txn.store.io.pageSize
    modifies txn`writes, txn`planned, txn.store`free, txn.store`next
    ensures txn.Valid() && id == NextId(old(txn.Work())) && txn.Work() == Wrote(old(txn.Work()), n)
  {
    hide ContentSize, LeafNode.Valid, InternalNode.Valid, ImagesFit, Images;
    id := txn.Alloc();
    txn.Write(id, page, n);
  }

  /** A grown page as it is, or split around its promoted key. */
  method SettlePage(grown: InternalNode, pageSize: nat, ghost g: Node) returns (r: Rebuilt)
    requires Represents(InternalPage(grown), g) && Sorted(grown.contents) && |g.keys| >= 2
    requires |g.ids| == |g.kids| == |g.keys| + 1 && PageSizeOk(pageSize)
    requires InnerFits(g.keys, pageSize) || OvergrownInner(g.keys, pageSize)
    ensures (r == One(InternalPage(grown)) || fresh(RebuiltObjects(r))) && Rebuilds(r, Settled(g, pageSize))
  {
    hide KeysSize, Sorted, InternalNode.Valid, OvergrownInner;
    if grown.NBytes() <= pageSize {
      r := One(InternalPage(grown));
    } else {
      hide InnerCut;
      var left, promoted, right := InternalSplitWithPromotion(grown, pageSize);
      r := Two(InternalPage(left), promoted, InternalPage(right));
    }
  }

  lemma SeesDisk(txn: WriteTxn)
    requires txn.planned == []
    ensures txn.Seen() == txn.store.io.pages
  {
  }

  /** Everything a descent into a subtree relies on. */
  ghost predicate Descendable(d: Disk, t: Node, h: nat, pageSize: nat, lo: Option<Key>, hi: Option<Key>, key: Key) {
    && PageSizeOk(pageSize) && Fits(t, h, pageSize) && Ordered(t, h, lo, hi) && From(lo, key) && Before(key, hi)
    && KidsStored(d, t, h, pageSize) && forall id :: id in PagesBelow(t) ==> id < U64_RANGE
  }

  lemma DescendToKid(d: Disk, t: Node, h: nat, pageSize: nat, lo: Option<Key>, hi: Option<Key>, key: Key)
    requires t.Inner? && Descendable(d, t, h, pageSize, lo, hi, key)
    ensures var i := ChildRank(t.keys, key);
            && h > 0 && |t.ids| == |t.kids| == |t.keys| + 1 && Sorted(t.keys)
            && Descendable(d, t.kids[i], h - 1, pageSize, LowerBound(t.keys, i, lo), UpperBound(t.keys, i, hi), key)
            && Readable(d, t.ids[i], t.kids[i], pageSize)
  {
    hide Less, AtMost, ChildRank, Sized, From, Before, PagesBelow, Holds, Stored;
    var i := ChildRank(t.keys, key);
    CoveringChild(t, h, lo, hi, key);
    KidFits(t, h, i, pageSize);
    KidOfStored(d, t, h, i, pageSize);
    KidPages(t, i);
    forall id | id in multiset{t.ids[i]} + PagesBelow(t.kids[i])
      ensures id < U64_RANGE
    {
      assert id in PagesBelow(t);
    }
    assert t.ids[i] in multiset{t.ids[i]} + PagesBelow(t.kids[i]);
    assert forall id :: id in PagesBelow(t.kids[i]) ==> id in multiset{t.ids[i]} + PagesBelow(t.kids[i]);
    if t.kids[i].Inner? {
      KidIds(t.kids[i]);
      ShapedKid(t.kids[i], h - 1);
    }
  }

  lemma KidIds(t: Node)
    requires t.Inner?
    ensures forall id :: id in t.ids ==> id in PagesBelow(t)
  {
    BelowInner(t);
  }

  lemma ShapedKid(t: Node, h: nat)
    requires Shaped(t, h) && t.Inner?
    ensures |t.ids| == |t.keys| + 1
  {
  }

  lemma DescendableFacts(d: Disk, t: Node, h: nat, pageSize: nat, lo: Option<Key>, hi: Option<Key>, key: Key)
    requires Descendable(d, t, h, pageSize, lo, hi, key)
    ensures PageSizeOk(pageSize) && Shaped(t, h)
    ensures t.Leaf? ==> h == 0 && SortedEntries(t.entries) && LeafFits(t.entries, pageSize)
  {
    hide Less, AtMost;
  }

  /** What the parent may rely on once a child has been rebuilt. */
  ghost predicate Absorbable(t: Node, h: nat, i: nat, result: InsertResult, pageSize: nat) {
    && PageSizeOk(pageSize) && t.Inner? && h > 0 && Fits(t, h, pageSize) && i < |t.kids| && Sorted(t.keys)
    && ResultFits(result, h - 1, pageSize)
    && (result.Split? ==> Sorted(t.keys[..i] + [result.sep] + t.keys[i..]))
  }

  lemma KidInsertion(d: Disk, t: Node, h: nat, pageSize: nat, lo: Option<Key>, hi: Option<Key>, e: Entry, w: Work)
    requires t.Inner? && Descendable(d, t, h, pageSize, lo, hi, e.key) && WithinLimits(e, pageSize)
    ensures h > 0 && |t.ids| == |t.kids| == |t.keys| + 1
    ensures var i := ChildRank(t.keys, e.key);
            Shaped(t.kids[i], h - 1)
            && Absorbable(t, h, i, InsertInto(t.kids[i], h - 1, e, pageSize, w).0, pageSize)
  {
    hide Less, AtMost, ChildRank, Sized, From, Before, After, PagesBelow, KidsStored, InsertInto, WithinLimits;
    var i := ChildRank(t.keys, e.key);
    CoveringChild(t, h, lo, hi, e.key);
    KidFits(t, h, i, pageSize);
    InsertFits(t.kids[i], h - 1, e, pageSize, w);
    InsertOrdered(t.kids[i], h - 1, e, pageSize, w, LowerBound(t.keys, i, lo), UpperBound(t.keys, i, hi));
    var result := InsertInto(t.kids[i], h - 1, e, pageSize, w).0;
    if result.Split? {
      KeysBelowSeparator(t.keys, i, result.sep, lo, hi);
    }
  }

  /** The sizes behind the pushes and splits of a parent taking in a rebuilt child. */
  lemma AbsorbSizes(t: Node, h: nat, i: nat, result: InsertResult, pageSize: nat)
    requires Absorbable(t, h, i, result, pageSize)
    ensures |t.ids| == |t.kids| == |t.keys| + 1
    ensures result.Single? ==> ContentSize(ContentOf(result.node)) <= pageSize
    ensures result.Split? ==>
              && ContentSize(ContentOf(result.left)) <= pageSize && ContentSize(ContentOf(result.right)) <= pageSize
              && KeysSize(t.keys) + 2 + |result.sep| <= U16_MAX
              && var grown := t.keys[..i] + [result.sep] + t.keys[i..];
                 |grown| >= 2 && (InnerFits(grown, pageSize) || OvergrownInner(grown, pageSize))
  {
    hide Sized, Sorted, KeysSize, ContentSize;
    KidFits(t, h, i, pageSize);
    match result {
      case Single(n) => FitsItsPage(n, h - 1, pageSize);
      case Split(l, sep, r) =>
        FitsItsPage(l, h - 1, pageSize);
        FitsItsPage(r, h - 1, pageSize);
        AbsorbFitsOrOvergrows(t.keys, i, sep, pageSize);
    }
  }

  method AbsorbRebuilt(txn: WriteTxn, node: InternalNode, idx: nat, rebuilt: Rebuilt, pageSize: nat,
                       ghost t: Node, ghost h: nat, ghost result: InsertResult)
    returns (r: Rebuilt)
    requires Absorbable(t, h, idx, result, pageSize)
    requires Represents(InternalPage(node), t) && Rebuilds(rebuilt, result)
    requires txn.Valid() && pageSize == txn.store.io.pageSize
    modifies txn`writes, txn`planned, txn.store`free, txn.store`next
    ensures |t.keys| >= 1 && |t.ids| == |t.kids| == |t.keys| + 1
    ensures var (spec, work) := Absorb(t, idx, result, old(txn.Work()), pageSize);
            fresh(RebuiltObjects(r)) && Rebuilds(r, spec) && txn.Work() == work
    ensures txn.Valid()
  {
    hide Absorbable, LeafNode.Valid, InternalNode.Valid, WriteTxn.Valid, Sorted, ContentSize, OvergrownInner,
         InnerFits, Settled;
    AbsorbSizes(t, h, idx, result, pageSize);
    AbsorbableFacts(t, h, idx, result, pageSize);
    if rebuilt.One? {
      var id := StoreChild(txn, rebuilt.page, result.node);
      var copy := InternalReplaceChild(node, idx, id);
      r := One(InternalPage(copy));
    } else {
      var lid := StoreChild(txn, rebuilt.left, result.left);
      var rid := StoreChild(txn, rebuilt.right, result.right);
      var grown := InternalInsertSplitChild(node, idx, rebuilt.sep, lid, rid);
      r := SettlePage(grown, pageSize, WithKids(t, idx, result.sep, lid, rid, result.left, result.right));
    }
  }

  lemma AbsorbableFacts(t: Node, h: nat, i: nat, result: InsertResult, pageSize: nat)
    requires Absorbable(t, h, i, result, pageSize)
    ensures PageSizeOk(pageSize) && t.Inner? && |t.keys| >= 1 && i < |t.kids| && Sorted(t.keys)
    ensures result.Split? ==> Sorted(t.keys[..i] + [result.sep] + t.keys[i..])
  {
    hide Sorted;
  }

  /** Dispatch on the kind of a decoded page. */
  method InsertPage(txn: WriteTxn, page: Page, key: Key, val: Value, pageSize: nat,
                    ghost t: Node, ghost h: nat, ghost lo: Option<Key>, ghost hi: Option<Key>)
    returns (r: Rebuilt)
    requires Descendable(txn.store.io.pages, t, h, pageSize, lo, hi, key) && WithinLimits(Entry(key, val), pageSize)
    requires Represents(page, t)
    requires txn.Valid() && txn.planned == [] && pageSize == txn.store.io.pageSize
    modifies txn, txn.store`free, txn.store`next
    ensures Shaped(t, h)
    ensures var (spec, work) := InsertInto(t, h, Entry(key, val), pageSize, old(txn.Work()));
            fresh(RebuiltObjects(r)) && Rebuilds(r, spec) && txn.Work() == work
    ensures txn.Valid()
    decreases h, 1
  {
    hide WithinLimits, Descendable, LeafNode.Valid, InternalNode.Valid, WriteTxn.Valid, InsertLeaf, Shaped;
    DescendableFacts(txn.store.io.pages, t, h, pageSize, lo, hi, key);
    if page.LeafPage? {
      r := InsertLeafPage(page.leaf, key, val, pageSize);
    } else {
      hide InsertInto;
      r := InsertInternal(txn, page.inner, key, val, pageSize, t, h, lo, hi);
    }
  }

  lemma PageOf(node: InternalNode, t: Node)
    ensures Represents(InternalPage(node), t)
       <==> node.Complete() && t.Inner? && t.keys == node.contents && t.ids == node.children
  {
  }

  method InsertInternal(txn: WriteTxn, node: InternalNode, key: Key, val: Value, pageSize: nat,
                        ghost t: Node, ghost h: nat, ghost lo: Option<Key>, ghost hi: Option<Key>)
    returns (r: Rebuilt)
    requires t.Inner? && Descendable(txn.store.io.pages, t, h, pageSize, lo, hi, key)
    requires WithinLimits(Entry(key, val), pageSize)
    requires Represents(InternalPage(node), t) && Shaped(t, h)
    requires txn.Valid() && txn.planned == [] && pageSize == txn.store.io.pageSize
    modifies txn, txn.store`free, txn.store`next
    ensures var (spec, work) := InsertInto(t, h, Entry(key, val), pageSize, old(txn.Work()));
            fresh(RebuiltObjects(r)) && Rebuilds(r, spec) && txn.Work() == work
    ensures txn.Valid()
    decreases h, 0
  {
    hide ChildRank, WithinLimits, Descendable, LeafNode.Valid, InternalNode.Valid, WriteTxn.Valid, Absorb, InsertLeaf,
         Sorted,
         Readable, Absorbable, Shaped, InsertInto, Represents, Rebuilds, WriteTxn.Work;
    PageOf(node, t);
    ghost var e, w := Entry(key, val), txn.Work();
    ghost var kid := DescendTo(txn, t, h, pageSize, lo, hi, e);
    var idx := InternalChildIndex(node, key);
    var childId := node.children[idx];
    ghost var kidLo, kidHi := LowerBound(t.keys, idx, lo), UpperBound(t.keys, idx, hi);
    SeesDisk(txn);
    var page := txn.Read(childId, kid);
    var rebuilt := InsertPage(txn, page, key, val, pageSize, kid, h - 1, kidLo, kidHi);
    txn.Free(childId);
    PageOf(node, t);
    r := AbsorbRebuilt(txn, node, idx, rebuilt, pageSize, t, h, InsertInto(kid, h - 1, e, pageSize, w).0);
  }

  /** The child the descent reaches, with all that its insertion and the parent's part need. */
  lemma DescendTo(txn: WriteTxn, t: Node, h: nat, pageSize: nat, lo: Option<Key>, hi: Option<Key>, e: Entry)
    returns (kid: Node)
    requires t.Inner? && Descendable(txn.store.io.pages, t, h, pageSize, lo, hi, e.key) && WithinLimits(e, pageSize)
    ensures h > 0 && Shaped(t, h) && |t.keys| >= 1 && |t.ids| == |t.kids| == |t.keys| + 1 && Sorted(t.keys)
    ensures PageSizeOk(pageSize)
    ensures var i := ChildRank(t.keys, e.key);
            && kid == t.kids[i] && Shaped(kid, h - 1)
            && Readable(txn.store.io.pages, t.ids[i], kid, pageSize)
            && Descendable(txn.store.io.pages, kid, h - 1, pageSize, LowerBound(t.keys, i, lo), UpperBound(t.keys, i, hi), e.key)
            && Absorbable(t, h, i, InsertInto(kid, h - 1, e, pageSize, txn.Work()).0, pageSize)
            && var (result, w1) := InsertInto(kid, h - 1, e, pageSize, txn.Work());
               InsertInto(t, h, e, pageSize, txn.Work()) == Absorb(t, i, result, Orphaned(w1, t.ids[i]), pageSize)
  {
    hide ChildRank, WithinLimits, Descendable, Readable, Absorbable, Absorb, InsertLeaf, Sorted;
    DescendableFacts(txn.store.io.pages, t, h, pageSize, lo, hi, e.key);
    DescendToKid(txn.store.io.pages, t, h, pageSize, lo, hi, e.key);
    KidInsertion(txn.store.io.pages, t, h, pageSize, lo, hi, e, txn.Work());
    kid := t.kids[ChildRank(t.keys, e.key)];
  }

  /* ---- Put ---- */

  lemma RootDescendable(s: Snapshot, root: Rooted, leaked: multiset<PageId>, pageSize: nat, key: Key)
    requires Consistent(s, root, leaked, pageSize)
    ensures Shaped(root.tree, root.height) && PageSizeOk(pageSize) && s.writer.next < U64_RANGE
    ensures Descendable(s.disk, root.tree, root.height, pageSize, None, None, key)
    ensures Readable(s.disk, root.id, root.tree, pageSize)
  {
    hide Accounted, Persisted, Sized, Ordered, Stored, PagesBelow, Holds;
    RootKids(s.disk, root, pageSize);
    forall id | id in PagesOf(root)
      ensures id < U64_RANGE
    {
      Parts(root, s.writer, leaked, id);
    }
    assert root.id in PagesOf(root) && forall id :: id in PagesBelow(root.tree) ==> id in PagesOf(root);
    if root.tree.Inner? {
      KidIds(root.tree);
      ShapedKid(root.tree, root.height);
    }
  }

  /** Writes the rebuilt root, growing the tree by one level if it came in two. */
  method StoreRoot(txn: WriteTxn, rebuilt: Rebuilt, ghost result: InsertResult, ghost h: nat) returns (newRoot: PageId)
    requires txn.Valid() && Rebuilds(rebuilt, result) && PageSizeOk(txn.store.io.pageSize)
    requires ResultFits(result, h, txn.store.io.pageSize)
    modifies txn`writes, txn`planned, txn.store`free, txn.store`next
    ensures txn.Valid() && var (after, work) := NewRoot(result, h, old(txn.Work())); newRoot == after.id && txn.Work() == work
  {
    hide LeafNode.Valid, InternalNode.Valid, WriteTxn.Valid, ContentSize, Fits, Wrote, NextId;
    ResultSizes(result, h, txn.store.io.pageSize);
    if rebuilt.One? {
      newRoot := StoreChild(txn, rebuilt.page, result.node);
    } else {
      var lid := StoreChild(txn, rebuilt.left, result.left);
      var rid := StoreChild(txn, rebuilt.right, result.right);
      var top := NewTop(rebuilt.sep, lid, rid);
      ghost var node := Inner([result.sep], [lid, rid], [result.left, result.right]);
      PageOf(top, node);
      newRoot := StoreChild(txn, InternalPage(top), node);
    }
  }

  /** A root with one separator and two children. */
  method NewTop(sep: Key, lid: PageId, rid: PageId) returns (top: InternalNode)
    requires |sep| + 2 <= U16_MAX
    ensures fresh(top) && top.Complete() && top.contents == [sep] && top.children == [lid, rid]
  {
    top := new InternalNode.Empty();
    top.PushKey(sep);
    top.PushChild(lid);
    top.PushChild(rid);
  }

  lemma ResultSizes(result: InsertResult, h: nat, pageSize: nat)
    requires PageSizeOk(pageSize) && ResultFits(result, h, pageSize)
    ensures result.Single? ==> ContentSize(ContentOf(result.node)) <= pageSize
    ensures result.Split? ==>
              && ContentSize(ContentOf(result.left)) <= pageSize && ContentSize(ContentOf(result.right)) <= pageSize
              && |result.sep| + 2 <= U16_MAX
              && forall lid, rid, l, r :: ContentSize(ContentOf(Inner([result.sep], [lid, rid], [l, r]))) <= pageSize
  {
    match result {
      case Single(n) => FitsItsPage(n, h, pageSize);
      case Split(l, sep, r) =>
        FitsItsPage(l, h, pageSize);
        FitsItsPage(r, h, pageSize);
        TwoSeparatorsFit([sep], pageSize);
    }
  }

  /**
   Inserts or replaces a key and commits. An entry over the limit is refused and nothing changes; otherwise the store
   becomes what `PutDone` says, whose map differs from the old one at exactly this key and which, while page ids last, is
   consistent.
   */
  method Put(txn: WriteTxn, key: Key, val: Value, ghost root: Rooted, ghost leaked: multiset<PageId>) returns (r: PutResult)
    requires Consistent(txn.store.State(), root, leaked, txn.store.io.pageSize)
    requires txn.Valid() && txn.Work() == Fresh(txn.store.State().writer) && txn.baseRoot == txn.store.root
    modifies txn, txn.store, txn.store.io
    ensures Shaped(root.tree, root.height) && txn.store.io.pageSize >= MIN_PAGE_SIZE
    ensures r == (if WithinLimits(Entry(key, val), txn.store.io.pageSize) then Done
                  else EntryTooLarge(|key| + |val|, MaxKvSize(txn.store.io.pageSize)))
    ensures r != Done ==> txn.store.State() == old(txn.store.State()) && txn.Work() == old(txn.Work())
    ensures r == Done ==>
              var e := Entry(key, val);
              var (s, after) := PutDone(old(txn.store.State()), root, e, txn.store.io.pageSize, old(txn.store.readers) == 0);
              && txn.store.State() == s
              && (RoomFor(old(txn.store.State().writer), root.height) ==> Consistent(s, after, leaked, txn.store.io.pageSize))
              && MapOf(Entries(after.tree)) == MapOf(Entries(root.tree))[key := val]
              && root.height <= after.height <= root.height + 1
  {
    hide Consistent, Descendable, Readable, WithinLimits, RoomFor, LeafNode.Valid, InternalNode.Valid, WriteTxn.Valid,
         InsertInto, MapOf, Committed, NewRoot, Represents, Rebuilds, Shaped, Entries, Sized, Ordered, Flush, Fits;
    var pageSize := txn.store.io.pageSize;
    ghost var s, e := txn.store.State(), Entry(key, val);
    RootDescendable(s, root, leaked, pageSize, key);
    var limit := CheckLimits(pageSize, key, val);
    if limit.Some? {
      return limit.value;
    }
    PutOutcome(s, root, e, pageSize, txn.store.readers == 0, leaked);
    DescendableFits(s.disk, root.tree, root.height, pageSize, key);
    InsertFits(root.tree, root.height, e, pageSize, Fresh(s.writer));
    var rootId := txn.baseRoot;
    RootIs(s, root, leaked, pageSize);
    NothingPlanned(txn, s.writer);
    SeesDisk(txn);
    var page := txn.Read(rootId, root.tree);
    var rebuilt := InsertPage(txn, page, key, val, pageSize, root.tree, root.height, None, None);
    ghost var result := InsertInto(root.tree, root.height, e, pageSize, Fresh(s.writer)).0;
    txn.Free(rootId);
    var newRoot := StoreRoot(txn, rebuilt, result, root.height);
    txn.Commit(newRoot);
    r := Done;
  }

  lemma PutOutcome(s: Snapshot, root: Rooted, e: Entry, pageSize: nat, quiescent: bool, leaked: multiset<PageId>)
    requires Consistent(s, root, leaked, pageSize) && WithinLimits(e, pageSize)
    ensures Shaped(root.tree, root.height) && pageSize >= MIN_PAGE_SIZE
    ensures var (s', after) := PutDone(s, root, e, pageSize, quiescent);
            && (RoomFor(s.writer, root.height) ==> Consistent(s', after, leaked, pageSize))
            && MapOf(Entries(after.tree)) == MapOf(Entries(root.tree))[e.key := e.value]
            && root.height <= after.height <= root.height + 1
  {
    hide Accounted, Persisted, RootStored, Sized, Ordered, PutTree, Committed, MapOf, RoomFor, WithinLimits;
    PutRefinesMap(root, e, pageSize, Fresh(s.writer));
    if RoomFor(s.writer, root.height) {
      PutKeepsConsistent(s, root, e, pageSize, quiescent, leaked);
    }
  }

  lemma DescendableFits(d: Disk, t: Node, h: nat, pageSize: nat, key: Key)
    requires Descendable(d, t, h, pageSize, None, None, key)
    ensures Fits(t, h, pageSize) && MIN_PAGE_SIZE <= pageSize
  {
  }

  lemma RootIs(s: Snapshot, root: Rooted, leaked: multiset<PageId>, pageSize: nat)
    requires Consistent(s, root, leaked, pageSize)
    ensures s.root == root.id
  {
  }

  lemma NothingPlanned(txn: WriteTxn, w: Writer)
    requires txn.Work() == Fresh(w)
    ensures txn.planned == [] && txn.freed == []
  {
  }

  /* ---- Get ---- */

  /** Looks a key up from a loaded root; the answer is the map's, for as long as the root's pages stay as they are. */
  method Get(view: ReadGuard, key: Key, ghost root: Rooted) returns (r: Option<Value>)
    requires Shaped(root.tree, root.height) && view.store.root == root.id
    requires Descendable(view.store.io.pages, root.tree, root.height, view.store.io.pageSize, None, None, key)
    requires Readable(view.store.io.pages, root.id, root.tree, view.store.io.pageSize)
    ensures r == TreeNodes.Get(MapOf(Entries(root.tree)), key)
  {
    hide Descendable, Readable, LeafNode.Valid, InternalNode.Valid, MapOf, Entries, ChildRank, Shaped, Represents,
         SortedEntries,
         Search, Sorted;
    ghost var d, pageSize := view.store.io.pages, view.store.io.pageSize;
    DescentIsLookup(d, root.tree, root.height, pageSize, key);
    ghost var cur, h, lo, hi := root.tree, root.height, None, None;
    var rootId := view.Root();
    var page := view.Read(rootId, cur);
    while page.InternalPage?
      invariant Represents(page, cur) && page.LeafPage? == cur.Leaf?
      invariant Shaped(cur, h) && Descendable(d, cur, h, pageSize, lo, hi, key)
      invariant Lookup(cur, h, key) == Lookup(root.tree, root.height, key)
      decreases h
    {
      PageOf(page.inner, cur);
      DescendToKid(d, cur, h, pageSize, lo, hi, key);
      var idx := InternalChildIndex(page.inner, key);
      var childId := page.inner.children[idx];
      DescendableFacts(d, cur.kids[idx], h - 1, pageSize, LowerBound(cur.keys, idx, lo), UpperBound(cur.keys, idx, hi), key);
      lo, hi := LowerBound(cur.keys, idx, lo), UpperBound(cur.keys, idx, hi);
      cur, h := cur.kids[idx], h - 1;
      page := view.Read(childId, cur);
    }
    DescendableFacts(d, cur, h, pageSize, lo, hi, key);
    LeafPageOf(page, cur);
    var found := LeafSearch(page.leaf, key);
    if found.Ok? {
      var v := page.leaf.GetVal(found.idx);
      r := Some(v);
    } else {
      r := None;
    }
  }

  lemma LeafPageOf(page: Page, n: Node)
    requires Represents(page, n) && page.LeafPage?
    ensures page.leaf.Valid() && n == Leaf(page.leaf.contents)
  {
  }

  lemma DescentIsLookup(d: Disk, t: Node, h: nat, pageSize: nat, key: Key)
    requires Shaped(t, h) && Descendable(d, t, h, pageSize, None, None, key)
    ensures Lookup(t, h, key) == TreeNodes.Get(MapOf(Entries(t)), key)
  {
    hide Lookup, MapOf, Entries, Sized;
    LookupIsMapLookup(t, h, None, None, key);
  }
}
