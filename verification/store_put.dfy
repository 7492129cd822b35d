/** A whole put on a store, and reopening one: both keep the store consistent. */
module StorePut {
  import opened ByteStrings
  import opened PageFormat
  import opened SplitPoints
  import opened KeySearch
  import opened FreeListPages
  import opened HeaderPages
  import opened TreeNodes
  import opened TreeInsert
  import opened TreeOrder
  import opened TreeStock
  import opened TreeStorage
  import opened StoreSpec
  import opened StoreState

  datatype Snapshot = Snapshot(disk: Disk, root: PageId, writer: Writer)

  /** The published root is a stored, well-formed tree; pages are accounted for; header and chain are up to date. */
  ghost predicate Consistent(s: Snapshot, root: Rooted, leaked: multiset<PageId>, pageSize: nat) {
    && PageSizeOk(pageSize) && s.root == root.id && s.writer.next < U64_RANGE
    && WellFormed(root.tree, root.height, pageSize) && RootStored(s.disk, root, pageSize)
    && Accounted(root, s.writer, leaked) && Persisted(s.disk, root.id, s.writer, pageSize)
  }

  /* ---- How far a put can push the file ---- */

  lemma WroteNext(w: Work, n: Node)
    ensures w.next <= Wrote(w, n).next <= w.next + 1
  {
  }

  lemma AbsorbNext(t: Node, i: nat, result: InsertResult, w: Work, pageSize: nat)
    requires t.Inner? && |t.keys| >= 1 && |t.ids| == |t.kids| == |t.keys| + 1 && i < |t.kids|
    ensures Absorb(t, i, result, w, pageSize).1.next <= w.next + 2
  {
    hide Settled, Wrote;
    match result {
      case Single(n) => WroteNext(w, n);
      case Split(l, sep, r) => WroteNext(w, l); WroteNext(Wrote(w, l), r);
    }
  }

  lemma {:induction false} InsertNext(t: Node, h: nat, e: Entry, pageSize: nat, w: Work)
    requires Shaped(t, h)
    ensures InsertInto(t, h, e, pageSize, w).1.next <= w.next + 2 * h
    decreases h
  {
    hide Absorb, ChildRank, InsertLeaf;
    if t.Inner? {
      var i := ChildRank(t.keys, e.key);
      InsertNext(t.kids[i], h - 1, e, pageSize, w);
      var (result, w1) := InsertInto(t.kids[i], h - 1, e, pageSize, w);
      AbsorbNext(t, i, result, Orphaned(w1, t.ids[i]), pageSize);
    }
  }

  lemma PutNext(root: Rooted, e: Entry, pageSize: nat, w: Work)
    requires Shaped(root.tree, root.height)
    ensures PutTree(root, e, pageSize, w).1.next <= w.next + 2 * root.height + 3
  {
    hide InsertInto, Wrote;
    InsertNext(root.tree, root.height, e, pageSize, w);
    var (result, w1) := InsertInto(root.tree, root.height, e, pageSize, w);
    var w2 := Orphaned(w1, root.id);
    match result {
      case Single(n) => WroteNext(w2, n);
      case Split(l, sep, r) =>
        var w3, w4 := Wrote(w2, l), Wrote(Wrote(w2, l), r);
        WroteNext(w2, l);
        WroteNext(w3, r);
        WroteNext(w4, Inner([sep], [NextId(w2), NextId(w3)], [l, r]));
    }
  }

  /* ---- Persisting the lists ---- */

  lemma {:induction false} ChunkElements(ids: seq<PageId>, cap: nat)
    requires cap >= 1
    ensures forall c, id :: c in Chunks(ids, cap) && id in c ==> id in ids
    decreases |ids|
  {
    if |ids| > cap {
      ChunkElements(ids[cap..], cap);
      assert forall id :: id in ids[cap..] ==> id in ids;
      assert forall c :: c in Chunks(ids, cap) ==> c == ids[..cap] || c in Chunks(ids[cap..], cap);
    }
  }

  lemma PayloadChunks(ids: seq<PageId>, pageSize: nat)
    requires RealIds(ids) && MIN_PAGE_SIZE <= pageSize
    ensures var chunks := Chunks(ids, ChainCapacity(pageSize));
            ChunksFit(chunks, pageSize) && Joined(chunks) == ids && forall c :: c in chunks ==> RealIds(c)
  {
    ChunkElements(ids, ChainCapacity(pageSize));
    ChunksJoin(ids, ChainCapacity(pageSize));
  }

  lemma {:induction false} ChainFrame(d: Disk, d': Disk, head: PageId, ids: seq<PageId>, entries: seq<PageId>)
    requires ChainOnDisk(d, head, ids, entries)
    requires forall id :: id in ids && id in d ==> id in d' && d'[id] == d[id]
    ensures ChainOnDisk(d', head, ids, entries)
    decreases |ids|
  {
    hide ParseFreeList;
    if ids != [] {
      assert ids[0] in ids && forall id :: id in ids[1..] ==> id in ids;
      var page := ParseFreeList(head, d[head]);
      ChainFrame(d, d', page.value.0, ids[1..], entries[|page.value.1|..]);
    }
  }

  /** Writing the chain pages and then the header makes the lists recoverable. */
  lemma PersistWorks(d: Disk, root: Rooted, w: Writer, leaked: multiset<PageId>, pageSize: nat)
    requires PageSizeOk(pageSize) && Accounted(root, w, leaked) && w.next <= U64_RANGE
    requires PagesNeeded(w, pageSize) <= |w.chain|
    ensures var header := HeaderPage(HeaderOf(w, root.id, pageSize), pageSize);
            Persisted(Applied(d, ChainWrites(w, pageSize))[HEADER_PAGE_ID := header], root.id, w, pageSize)
  {
    hide Accounted, HeaderPage, ChainOnDisk, Chunks, ChainImages, Applied, RealIds;
    ChainApart(root, w, leaked);
    PayloadChunks(Payload(w), pageSize);
    var used := UsedChain(w, pageSize);
    assert forall id :: id in used ==> id in w.chain;
    var chunks := Chunks(Payload(w), ChainCapacity(pageSize));
    UsedReal(w.chain, |used|);
    ChainWritten(d, used, chunks, pageSize);
    var d1 := Applied(d, ChainWrites(w, pageSize));
    ChainFrame(d1, d1[HEADER_PAGE_ID := HeaderPage(HeaderOf(w, root.id, pageSize), pageSize)],
               HeadOf(used), used, Payload(w));
  }

  lemma UsedReal(ids: seq<PageId>, n: nat)
    requires n <= |ids| && RealIds(ids) && Distinct(ids)
    ensures RealIds(ids[..n]) && Distinct(ids[..n])
  {
    assert forall id :: id in ids[..n] ==> id in ids;
  }

  /** Trees whose pages are neither chain pages nor the header survive persisting. */
  lemma PersistLeavesTrees(d: Disk, root: Rooted, w: Writer, writes: seq<DiskWrite>, header: Bytes, pageSize: nat)
    requires RootStored(d, root, pageSize)
    requires forall i :: 0 <= i < |writes| ==> writes[i].id !in PagesOf(root)
    requires HEADER_PAGE_ID !in PagesOf(root)
    ensures RootStored(Applied(d, writes), root, pageSize)
    ensures RootStored(Applied(d, writes)[HEADER_PAGE_ID := header], root, pageSize)
  {
    hide Applied, Stored, PagesBelow;
    var d1 := Applied(d, writes);
    var d2 := d1[HEADER_PAGE_ID := header];
    forall id | id in PagesOf(root) && id in d
      ensures id in d1 && d1[id] == d[id] && id in d2 && d2[id] == d[id]
    {
      AppliedElsewhere(d, writes, id);
    }
    StoredFrame(d, d1, root.id, root.tree, root.height, pageSize);
    StoredFrame(d, d2, root.id, root.tree, root.height, pageSize);
  }

  /* ---- The whole put ---- */

  /** A commit: images, gate, chain pages, header, root. `s` has the transaction's allocations already drawn. */
  function Committed(
    s: Snapshot, writes: seq<PageWrite>, freed: seq<PageId>, newRoot: PageId, pageSize: nat, quiescent: bool): Snapshot
    requires pageSize >= MIN_PAGE_SIZE
  {
    var w := ChainGrown(Gate(s.writer, freed, quiescent), pageSize);
    var d := Applied(Flush(s.disk, writes, pageSize), ChainWrites(w, pageSize));
    Snapshot(d[HEADER_PAGE_ID := HeaderPage(HeaderOf(w, newRoot, pageSize), pageSize)], newRoot, w)
  }

  /** The state and tree after a put commits; `quiescent` is what the gate saw. */
  function PutDone(s: Snapshot, root: Rooted, e: Entry, pageSize: nat, quiescent: bool): (Snapshot, Rooted)
    requires Shaped(root.tree, root.height) && pageSize >= MIN_PAGE_SIZE
  {
    var (after, work) := PutTree(root, e, pageSize, Fresh(s.writer));
    var drawn := s.(writer := Drawn(s.writer, work));
    (Committed(drawn, work.writes, work.freed, after.id, pageSize, quiescent), after)
  }

  /** A growing chain keeps the payload, so the pages it needs stay the same. */
  lemma GrownEnough(w: Writer, pageSize: nat)
    requires pageSize >= MIN_PAGE_SIZE
    ensures PagesNeeded(ChainGrown(w, pageSize), pageSize) <= |ChainGrown(w, pageSize).chain|
    ensures Payload(ChainGrown(w, pageSize)) == Payload(w)
  {
  }

  lemma ChainRoom(root: Rooted, w: Writer, leaked: multiset<PageId>, pageSize: nat)
    requires Accounted(root, w, leaked) && pageSize >= MIN_PAGE_SIZE && 2 * w.next < U64_RANGE
    ensures Accounted(root, ChainGrown(w, pageSize), leaked) && w.next <= ChainGrown(w, pageSize).next < U64_RANGE
  {
    hide Accounted, Chunks, GrownChain, RealIds;
    ChainApart(root, w, leaked);
    forall id | id in Payload(w)
      ensures id < w.next
    {
      Parts(root, w, leaked, id);
    }
    DistinctBelow(Payload(w), w.next);
    GrownAccounts(root, w, PagesNeeded(w, pageSize), leaked);
  }

  lemma GatedWriter(root: Rooted, w: Writer, e: Entry, pageSize: nat, quiescent: bool, leaked: multiset<PageId>)
    requires Shaped(root.tree, root.height) && Accounted(root, w, leaked) && RoomFor(w, root.height)
    requires pageSize >= MIN_PAGE_SIZE
    ensures var (after, work) := PutTree(root, e, pageSize, Fresh(w));
            var g := Gate(Drawn(w, work), work.freed, quiescent);
            Accounted(after, g, leaked) && 2 * g.next < U64_RANGE
  {
    hide PutTree, Accounted, PagesOf;
    var (after, work) := PutTree(root, e, pageSize, Fresh(w));
    BeginPut(root, w, e, pageSize, leaked);
    PutNext(root, e, pageSize, Fresh(w));
    GateAccounts(root, after, Drawn(w, work), work.freed, Written(work.writes), quiescent, leaked);
  }

  /** A put within the limits leaves a consistent store whose map has exactly that key set, at most one level higher. */
  lemma PutKeepsConsistent(s: Snapshot, root: Rooted, e: Entry, pageSize: nat, quiescent: bool, leaked: multiset<PageId>)
    requires Consistent(s, root, leaked, pageSize) && RoomFor(s.writer, root.height) && WithinLimits(e, pageSize)
    ensures var (s', after) := PutDone(s, root, e, pageSize, quiescent);
            && Consistent(s', after, leaked, pageSize)
            && MapOf(Entries(after.tree)) == MapOf(Entries(root.tree))[e.key := e.value]
            && root.height <= after.height <= root.height + 1
  {
    hide PutTree, Accounted, PagesOf, RootStored, Sized, Ordered, Persisted, Flush, Applied, MapOf, ChainGrown,
         WithinLimits;
    hide HeaderPage, ChainWrites;
    var (after, work) := PutTree(root, e, pageSize, Fresh(s.writer));
    PutRefinesMap(root, e, pageSize, Fresh(s.writer));
    GatedWriter(root, s.writer, e, pageSize, quiescent, leaked);
    var g := Gate(Drawn(s.writer, work), work.freed, quiescent);
    ChainRoom(after, g, leaked, pageSize);
    GrownEnough(g, pageSize);
    var w := ChainGrown(g, pageSize);
    var d := Flush(s.disk, work.writes, pageSize);
    FlushedTree(s.disk, root, s.writer, e, pageSize, leaked);
    PersistWorks(d, after, w, leaked, pageSize);
    ChainWritesApart(after, w, leaked, pageSize);
    PersistLeavesTrees(d, after, w, ChainWrites(w, pageSize), HeaderPage(HeaderOf(w, after.id, pageSize), pageSize), pageSize);
  }

  lemma FlushedTree(d: Disk, root: Rooted, w: Writer, e: Entry, pageSize: nat, leaked: multiset<PageId>)
    requires MIN_PAGE_SIZE <= pageSize && WellFormed(root.tree, root.height, pageSize) && WithinLimits(e, pageSize)
    requires RootStored(d, root, pageSize) && Accounted(root, w, leaked)
    ensures var (after, work) := PutTree(root, e, pageSize, Fresh(w));
            RootStored(Flush(d, work.writes, pageSize), after, pageSize)
  {
    hide PutTree, PagesOf, RootStored, Sized, Flush, Accounted, AccountedInFlight;
    BeginPut(root, w, e, pageSize, leaked);
    var (after, work) := PutTree(root, e, pageSize, Fresh(w));
    WritesApart(root, Drawn(w, work), work.writes, leaked);
    PutStored(d, root, e, pageSize, Fresh(w));
  }

  lemma ChainWritesApart(root: Rooted, w: Writer, leaked: multiset<PageId>, pageSize: nat)
    requires Accounted(root, w, leaked) && pageSize >= MIN_PAGE_SIZE && PagesNeeded(w, pageSize) <= |w.chain|
    requires w.next <= U64_RANGE
    ensures var writes := ChainWrites(w, pageSize);
            forall i :: 0 <= i < |writes| ==> writes[i].id !in PagesOf(root)
    ensures HEADER_PAGE_ID !in PagesOf(root)
  {
    hide Accounted, PagesOf, ChainImages, UsedChain;
    ChainApart(root, w, leaked);
  }

  /* ---- Reopening ---- */

  /** What opening a disk with this header and chain gives. */
  function Reopened(s: Snapshot, pageSize: nat): Snapshot
    requires pageSize >= MIN_PAGE_SIZE && PagesNeeded(s.writer, pageSize) <= |s.writer.chain|
  {
    s.(writer := Writer(s.writer.next, Payload(s.writer), [], UsedChain(s.writer, pageSize)))
  }

  lemma HeaderDecodes(w: Writer, root: PageId, pageSize: nat)
    requires PageSizeOk(pageSize) && PagesNeeded(w, pageSize) <= |w.chain|
    requires w.next < U64_RANGE && root < U64_RANGE && HeadOf(UsedChain(w, pageSize)) < U64_RANGE
    requires |Payload(w)| < U64_RANGE
    ensures FromBytes(HeaderPage(HeaderOf(w, root, pageSize), pageSize)) == Decoded(HeaderOf(w, root, pageSize))
  {
    hide FromBytes, HeaderPage, UsedChain, PagesNeeded;
    HeaderRoundTrip(HeaderOf(w, root, pageSize), pageSize);
  }

  /**
   Reopening recovers the store: the header decodes to the published root and `next`, and the chain walk
   is fully determined and gives back free ++ pending in order and the chain pages in use. Chain pages beyond
   those are leaked, and everything else stays accounted for.
   */
  lemma ReopenRecovers(s: Snapshot, root: Rooted, leaked: multiset<PageId>, pageSize: nat)
    requires Consistent(s, root, leaked, pageSize)
    ensures HEADER_PAGE_ID in s.disk
    ensures FromBytes(s.disk[HEADER_PAGE_ID]) == Decoded(HeaderOf(s.writer, s.root, pageSize))
    ensures forall ids, entries ::
              ChainOnDisk(s.disk, HeadOf(UsedChain(s.writer, pageSize)), ids, entries)
              <==> ids == UsedChain(s.writer, pageSize) && entries == s.writer.free + s.writer.pending
    ensures Consistent(Reopened(s, pageSize), root,
                       leaked + multiset(s.writer.chain[PagesNeeded(s.writer, pageSize)..]), pageSize)
  {
    hide Accounted, RootStored, WellFormed, PagesOf, RealIds, Chunks, ChainOnDisk, FromBytes, HeaderPage;
    var w := s.writer;
    ChainApart(root, w, leaked);
    FieldsInRange(root, w, leaked, pageSize);
    HeaderDecodes(w, s.root, pageSize);
    forall ids, entries | ChainOnDisk(s.disk, HeadOf(UsedChain(w, pageSize)), ids, entries)
      ensures ids == UsedChain(w, pageSize) && entries == Payload(w)
    {
      ChainIsDetermined(s.disk, HeadOf(UsedChain(w, pageSize)), UsedChain(w, pageSize), Payload(w), ids, entries);
    }
    var w' := Reopened(s, pageSize).writer;
    assert Payload(w') == Payload(w) + [] == Payload(w);
    assert UsedChain(w', pageSize) == UsedChain(w, pageSize);
    ReopenedAccounts(root, w, leaked, pageSize);
  }

  lemma FieldsInRange(root: Rooted, w: Writer, leaked: multiset<PageId>, pageSize: nat)
    requires PageSizeOk(pageSize) && Accounted(root, w, leaked) && w.next <= U64_RANGE
    requires PagesNeeded(w, pageSize) <= |w.chain|
    ensures root.id < w.next && HeadOf(UsedChain(w, pageSize)) < U64_RANGE && |Payload(w)| <= w.next
  {
    hide Accounted, PagesNeeded;
    assert root.id in PagesOf(root);
    hide PagesOf;
    Parts(root, w, leaked, root.id);
    ChainApart(root, w, leaked);
    if UsedChain(w, pageSize) != [] {
      assert UsedChain(w, pageSize)[0] in w.chain;
    }
    forall id | id in Payload(w)
      ensures id < w.next
    {
      Parts(root, w, leaked, id);
    }
    DistinctBelow(Payload(w), w.next);
  }

  lemma ReopenedAccounts(root: Rooted, w: Writer, leaked: multiset<PageId>, pageSize: nat)
    requires pageSize >= MIN_PAGE_SIZE && PagesNeeded(w, pageSize) <= |w.chain| && Accounted(root, w, leaked)
    ensures var n := PagesNeeded(w, pageSize);
            Accounted(root, Writer(w.next, Payload(w), [], w.chain[..n]), leaked + multiset(w.chain[n..]))
  {
    hide PagesOf, AllIds, Chunks;
    var n := PagesNeeded(w, pageSize);
    assert w.chain == w.chain[..n] + w.chain[n..];
    var w' := Writer(w.next, Payload(w), [], w.chain[..n]);
    var leaked' := leaked + multiset(w.chain[n..]);
    ReopenBalance(multiset{HEADER_PAGE_ID} + PagesOf(root), multiset(w.free), multiset(w.pending), multiset(w.chain[..n]),
                  multiset(w.chain[n..]), leaked, multiset(w'.free), multiset(w'.pending));
  }

  lemma ReopenBalance(a: multiset<PageId>, free: multiset<PageId>, pending: multiset<PageId>, used: multiset<PageId>,
                      surplus: multiset<PageId>, leaked: multiset<PageId>, free': multiset<PageId>, pending': multiset<PageId>)
    requires free' == free + pending && pending' == multiset{}
    ensures a + free' + pending' + used + (leaked + surplus) == a + free + pending + (used + surplus) + leaked
  {
  }

  /* ---- A fresh store ---- */

  const EMPTY_ROOT := Rooted(INITIAL_ROOT_PAGE_ID, Leaf([]), 0)

  function FreshWriter(): Writer {
    Writer(INITIAL_ROOT_PAGE_ID + 1, [], [], [])
  }

  /** A blank disk after bootstrapping: an empty leaf and a header naming it. */
  function Bootstrapped(d: Disk, pageSize: nat): Snapshot
    requires pageSize >= MIN_PAGE_SIZE
  {
    Snapshot(d[INITIAL_ROOT_PAGE_ID := Image(Leaf([]), INITIAL_ROOT_PAGE_ID, pageSize)]
              [HEADER_PAGE_ID := HeaderPage(NewHeader(pageSize, INITIAL_ROOT_PAGE_ID, INITIAL_ROOT_PAGE_ID + 1), pageSize)],
             INITIAL_ROOT_PAGE_ID, FreshWriter())
  }

  /** A freshly created store is consistent, with nothing leaked and an empty map. */
  lemma BootstrappedConsistent(d: Disk, pageSize: nat)
    requires PageSizeOk(pageSize)
    ensures Consistent(Bootstrapped(d, pageSize), EMPTY_ROOT, multiset{}, pageSize)
    ensures Bootstrapped(d, pageSize).root == 1 && Bootstrapped(d, pageSize).writer == Writer(2, [], [], [])
    ensures MapOf(Entries(EMPTY_ROOT.tree)) == map[]
  {
    hide Image, HeaderPage, ChunksFit;
    FreshAccounts();
    hide Accounted;
    var w := FreshWriter();
    assert Payload(w) == [] && w.chain[..0] == [];
    assert HeaderOf(w, 1, pageSize) == NewHeader(pageSize, 1, 2);
  }

  lemma FreshAccounts()
    ensures Accounted(EMPTY_ROOT, FreshWriter(), multiset{})
  {
    assert AllIds(2) == AllIds(1) + multiset{1} && AllIds(1) == AllIds(0) + multiset{0};
  }
}
