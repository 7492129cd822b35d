/** The store as the source keeps it: a page backend, writer state behind a lock, a published root and a reader count. */
module Stores {
  import opened ByteStrings
  import opened PageFormat
  import opened SplitPoints
  import opened FreeListPages
  import opened HeaderPages
  import opened LeafNodes
  import opened InternalNodes
  import opened TreeNodes
  import opened TreeInsert
  import opened TreeStock
  import opened TreeStorage
  import opened StoreSpec
  import opened StoreState
  import opened StorePut

  /** The backend contract: whole pages, and a page never written reads as zeros. */
  class PageIo {
    const pageSize: nat
    var pages: Disk

    constructor (pageSize: nat)
      ensures this.pageSize == pageSize && pages == map[]
    {
      this.pageSize := pageSize;
      pages := map[];
    }

    method ReadPage(id: PageId) returns (r: Bytes)
      ensures r == PageAt(pages, id, pageSize)
    {
      r := if id in pages then pages[id] else Zeros(pageSize);
    }

    method WritePage(id: PageId, bytes: Bytes)
      requires |bytes| == pageSize
      modifies this
      ensures pages == old(pages)[id := bytes]
    {
      pages := pages[id := bytes];
    }
  }

  function PageAt(d: Disk, id: PageId, pageSize: nat): Bytes {
    if id in d then d[id] else Zeros(pageSize)
  }

  /** What the header page decodes to. */
  function OnDisk(d: Disk, pageSize: nat): HeaderResult {
    FromBytes(PageAt(d, HEADER_PAGE_ID, pageSize))
  }

  /* ---- Decoded pages ---- */

  datatype Page =
    | LeafPage(leaf: LeafNode)
    | InternalPage(inner: InternalNode)

  function Objects(page: Page): set<object> {
    match page
    case LeafPage(leaf) => {leaf}
    case InternalPage(inner) => {inner}
  }

  /** The objects hold exactly this node's contents. */
  ghost predicate Represents(page: Page, n: Node)
    reads Objects(page)
  {
    match page
    case LeafPage(leaf) => leaf.Valid() && n == Leaf(leaf.contents)
    case InternalPage(inner) => inner.Complete() && n.Inner? && n.keys == inner.contents && n.ids == inner.children
  }

  /** The page is on disk and everything in it fits its field. */
  ghost predicate Readable(d: Disk, id: PageId, n: Node, pageSize: nat) {
    && pageSize <= U16_MAX && Holds(d, id, n, pageSize) && id < U64_RANGE
    && (n.Inner? ==> |n.ids| == |n.keys| + 1 && forall i :: i in n.ids ==> i < U64_RANGE)
  }

  /** `Page::decode`: dispatch on the type tag. */
  method DecodePage(id: PageId, bytes: Bytes, ghost n: Node, ghost pageSize: nat) returns (page: Page)
    requires Readable(map[id := bytes], id, n, pageSize)
    ensures fresh(Objects(page)) && Represents(page, n) && page.LeafPage? == n.Leaf?
  {
    hide Parse, PageBytes, Encodable, LeafNode.Valid, InternalNode.Valid;
    ghost var c := ContentOf(n);
    FittingIsEncodable(c);
    PageRoundTrip(c, id, bytes);
    TagOfPage(c, id, pageSize);
    if bytes[0] == PAGE_TYPE_LEAF {
      var leaf := new LeafNode.Decode(id, bytes);
      page := LeafPage(leaf);
    } else {
      var inner := new InternalNode.Decode(id, bytes);
      page := InternalPage(inner);
    }
  }

  lemma TagOfPage(c: Content, id: PageId, pageSize: nat)
    requires ContentSize(c) <= pageSize
    ensures |PageBytes(c, id, pageSize)| > 0 && PageBytes(c, id, pageSize)[0] == Tag(c)
  {
  }

  /** `Page::to_bytes`. */
  method PageToBytes(page: Page, id: PageId, pageSize: nat, ghost n: Node) returns (bytes: Bytes)
    requires Represents(page, n) && ContentSize(ContentOf(n)) <= pageSize
    ensures bytes == Image(n, id, pageSize) && |bytes| == pageSize
  {
    hide PageBytes, LeafNode.Valid, InternalNode.Valid;
    match page {
      case LeafPage(leaf) => bytes := leaf.ToBytes(id, pageSize);
      case InternalPage(inner) => bytes := inner.ToBytes(id, pageSize);
    }
  }

  datatype OpenResult =
    | Opened(store: Store)
    | OtherPageSize(requested: nat, persisted: nat)
    | OtherVersion(found: nat, expected: nat)

  /** Following the chain from `head` as the source does, tags and ids unchecked, visits `ids` and collects `entries`. */
  ghost predicate ChainReads(d: Disk, pageSize: nat, head: PageId, ids: seq<PageId>, entries: seq<PageId>)
    decreases |ids|
  {
    if ids == [] then head == 0 && entries == []
    else
      && head == ids[0] && head != 0
      && var page := ReadFreeList(PageAt(d, head, pageSize));
      && page.Some? && page.value.1 <= entries
      && ChainReads(d, pageSize, page.value.0, ids[1..], entries[|page.value.1|..])
  }

  /** A well-formed chain is read as what it is. */
  lemma {:induction false} ChainIsRead(d: Disk, pageSize: nat, head: PageId, ids: seq<PageId>, entries: seq<PageId>)
    requires ChainOnDisk(d, head, ids, entries)
    ensures ChainReads(d, pageSize, head, ids, entries)
    decreases |ids|
  {
    hide ReadFreeList;
    if ids != [] {
      var page := ReadFreeList(d[head]);
      ChainIsRead(d, pageSize, page.value.0, ids[1..], entries[|page.value.1|..]);
    }
  }

  lemma ChainEnds(d: Disk, pageSize: nat, head: PageId, ids: seq<PageId>, entries: seq<PageId>)
    requires ChainReads(d, pageSize, head, ids, entries)
    ensures head == 0 ==> ids == [] && entries == []
  {
    hide ReadFreeList;
  }

  /** One page of the walk. */
  lemma ChainTurns(d: Disk, pageSize: nat, head: PageId, ids: seq<PageId>, entries: seq<PageId>)
    requires ChainReads(d, pageSize, head, ids, entries) && head != 0
    ensures var page := ReadFreeList(PageAt(d, head, pageSize));
            && page.Some? && page.value.1 <= entries && ids != [] && ids == [head] + ids[1..]
            && entries == page.value.1 + entries[|page.value.1|..]
            && ChainReads(d, pageSize, page.value.0, ids[1..], entries[|page.value.1|..])
  {
    hide ReadFreeList;
  }

  /** Walks the chain from its head; the walk ends because there is a finite chain to read. */
  method LoadFreeListChain(io: PageIo, head: PageId, ghost ids: seq<PageId>, ghost entries: seq<PageId>)
    returns (freeList: seq<PageId>, pageIds: seq<PageId>)
    requires ChainReads(io.pages, io.pageSize, head, ids, entries)
    ensures freeList == entries && pageIds == ids
  {
    hide ReadFreeList, ParseFreeList, ChainReads, PageAt;
    freeList, pageIds := [], [];
    ChainEnds(io.pages, io.pageSize, head, ids, entries);
    var cur := head;
    ghost var left, rest := ids, entries;
    while cur != 0
      invariant ChainReads(io.pages, io.pageSize, cur, left, rest)
      invariant ids == pageIds + left && entries == freeList + rest
      invariant cur == 0 ==> left == [] && rest == []
      decreases |left|
    {
      ChainTurns(io.pages, io.pageSize, cur, left, rest);
      var bytes := io.ReadPage(cur);
      var next, chunk := FreeListDecode(cur, bytes);
      freeList := freeList + chunk;
      pageIds := pageIds + [cur];
      rest := rest[|chunk|..];
      left := left[1..];
      cur := next;
      ChainEnds(io.pages, io.pageSize, cur, left, rest);
    }
  }

  class Store {
    const io: PageIo
    var root: PageId
    var readers: nat
    var next: nat
    var free: seq<PageId>
    var pending: seq<PageId>
    var chain: seq<PageId>

    ghost function State(): Snapshot
      reads this, io
    {
      Snapshot(io.pages, root, Writer(next, free, pending, chain))
    }

    constructor (io: PageIo, root: PageId, next: nat, free: seq<PageId>, chain: seq<PageId>)
      ensures this.io == io && readers == 0
      ensures State() == Snapshot(io.pages, root, Writer(next, free, [], chain))
    {
      this.io, this.root, this.next, this.free, this.chain := io, root, next, free, chain;
      pending, readers := [], 0;
    }

    /**
     Reads and validates the header, or bootstraps an empty leaf root. A header of another page size or version
     is an error and changes nothing. The ghost arguments are the free-list chain a valid header leads to.
     */
    static method OpenOrCreate(io: PageIo, ghost ids: seq<PageId>, ghost entries: seq<PageId>) returns (r: OpenResult)
      requires io.pageSize >= MIN_PAGE_SIZE
      requires var found := OnDisk(io.pages, io.pageSize);
               found.Decoded? && found.header.pageSize == io.pageSize ==>
                 ChainReads(io.pages, io.pageSize, found.header.freeListHead, ids, entries)
      modifies io
      ensures r.Opened? ==> fresh(r.store) && r.store.io == io && r.store.readers == 0
      ensures var found := old(OnDisk(io.pages, io.pageSize));
              && (found.NotAHeader? ==> r.Opened? && r.store.State() == Bootstrapped(old(io.pages), io.pageSize))
              && (!found.NotAHeader? ==> io.pages == old(io.pages))
              && (found.VersionMismatch? ==> r == OtherVersion(found.found, VERSION))
              && (found.Decoded? && found.header.pageSize != io.pageSize ==>
                    r == OtherPageSize(io.pageSize, found.header.pageSize))
              && (found.Decoded? && found.header.pageSize == io.pageSize ==>
                    r.Opened? && r.store.State() == Snapshot(io.pages, found.header.rootId,
                                                             Writer(found.header.nextPageId, entries, [], ids)))
    {
      hide FromBytes, Image, ChainReads, HeaderPage;
      var bytes := io.ReadPage(HEADER_PAGE_ID);
      var found := FromBytes(bytes);
      if found.VersionMismatch? {
        return OtherVersion(found.found, VERSION);
      }
      if found.Decoded? {
        var h := found.header;
        if h.pageSize != io.pageSize {
          return OtherPageSize(io.pageSize, h.pageSize);
        }
        var freeList, pageIds := LoadFreeListChain(io, h.freeListHead, ids, entries);
        var store := new Store(io, h.rootId, h.nextPageId, freeList, pageIds);
        return Opened(store);
      }
      var root := new LeafNode.Empty();
      var rootBytes := root.ToBytes(INITIAL_ROOT_PAGE_ID, io.pageSize);
      io.WritePage(INITIAL_ROOT_PAGE_ID, rootBytes);
      var h := NewHeader(io.pageSize, INITIAL_ROOT_PAGE_ID, INITIAL_ROOT_PAGE_ID + 1);
      var headerBytes := ToBytes(h, io.pageSize);
      io.WritePage(HEADER_PAGE_ID, headerBytes);
      var store := new Store(io, h.rootId, h.nextPageId, [], []);
      r := Opened(store);
    }

    method EnterRead() returns (view: ReadGuard)
      modifies this`readers
      ensures readers == old(readers) + 1 && fresh(view) && view.store == this
    {
      readers := readers + 1;
      view := new ReadGuard(this);
    }

    method BeginWrite() returns (txn: WriteTxn)
      ensures fresh(txn) && txn.Valid() && txn.store == this && txn.baseRoot == root
      ensures txn.Work() == Work(free, next, [], [])
    {
      txn := new WriteTxn(this, root);
    }
  }

  class ReadGuard {
    const store: Store

    constructor (store: Store)
      ensures this.store == store
    {
      this.store := store;
    }

    method Root() returns (r: PageId)
      ensures r == store.root
    {
      r := store.root;
    }

    method Read(id: PageId, ghost n: Node) returns (page: Page)
      requires Readable(store.io.pages, id, n, store.io.pageSize)
      ensures fresh(Objects(page)) && Represents(page, n) && page.LeafPage? == n.Leaf?
    {
      hide Image;
      var bytes := store.io.ReadPage(id);
      page := DecodePage(id, bytes, n, store.io.pageSize);
    }

    /** Dropping the guard. */
    method Leave()
      requires store.readers > 0
      modifies store`readers
      ensures store.readers == old(store.readers) - 1
    {
      store.readers := store.readers - 1;
    }
  }

  /* ---- Write transactions ---- */

  /** The raw writes of buffered images. */
  function Images(writes: seq<PageWrite>, pageSize: nat): (r: seq<DiskWrite>)
    ensures |r| == |writes|
  {
    seq(|writes|, i requires 0 <= i < |writes| => DiskWrite(writes[i].id, Image(writes[i].node, writes[i].id, pageSize)))
  }

  /** Of several writes of a page the last one counts. */
  lemma {:induction false} FlushLatest(d: Disk, writes: seq<PageWrite>, pageSize: nat, i: nat)
    requires i < |writes| && forall j :: i < j < |writes| ==> writes[j].id != writes[i].id
    ensures writes[i].id in Flush(d, writes, pageSize)
    ensures Flush(d, writes, pageSize)[writes[i].id] == Image(writes[i].node, writes[i].id, pageSize)
    decreases |writes|
  {
    hide Image;
    if i < |writes| - 1 {
      FlushLatest(d, writes[..|writes| - 1], pageSize, i);
    }
  }

  lemma NeverWritten(writes: seq<PageWrite>, id: PageId)
    requires forall j :: 0 <= j < |writes| ==> writes[j].id != id
    ensures id !in Written(writes)
  {
    WrittenIds(writes, id);
  }

  class WriteTxn {
    const store: Store
    const baseRoot: PageId
    var writes: seq<DiskWrite>
    var freed: seq<PageId>
    ghost var planned: seq<PageWrite>

    ghost predicate Valid()
      reads this, store
    {
      writes == Images(planned, store.io.pageSize) && ImagesFit(planned, store.io.pageSize)
    }

    ghost function Work(): Work
      reads this, store
    {
      TreeInsert.Work(store.free, store.next, planned, freed)
    }

    constructor (store: Store, baseRoot: PageId)
      ensures this.store == store && this.baseRoot == baseRoot && Valid()
      ensures Work() == TreeInsert.Work(store.free, store.next, [], [])
    {
      this.store, this.baseRoot, writes, freed, planned := store, baseRoot, [], [], [];
    }

    /** The disk as this transaction sees it, its own writes included. */
    ghost function Seen(): Disk
      reads this, store, store.io
    {
      Flush(store.io.pages, planned, store.io.pageSize)
    }

    /** Reads the transaction's own latest write of the page, or else the page on disk. */
    method Read(id: PageId, ghost n: Node) returns (page: Page)
      requires Valid() && Readable(Seen(), id, n, store.io.pageSize)
      ensures fresh(Objects(page)) && Represents(page, n) && page.LeafPage? == n.Leaf?
    {
      hide Flush, Readable, WriteTxn.Valid, Seen, Represents;
      var i := |writes|;
      PlannedIds();
      while i > 0
        invariant 0 <= i <= |writes| == |planned|
        invariant forall j :: i <= j < |planned| ==> planned[j].id != id
      {
        i := i - 1;
        if writes[i].id == id {
          SeenWrite(id, n, i);
          page := DecodePage(id, writes[i].bytes, n, store.io.pageSize);
          return;
        }
      }
      SeenDisk(id, n);
      var bytes := store.io.ReadPage(id);
      page := DecodePage(id, bytes, n, store.io.pageSize);
    }

    lemma PlannedIds()
      requires Valid()
      ensures |writes| == |planned| && forall j :: 0 <= j < |writes| ==> writes[j].id == planned[j].id
    {
      hide Image;
    }

    lemma SeenWrite(id: PageId, n: Node, i: nat)
      requires Valid() && i < |writes| == |planned| && planned[i].id == id && Readable(Seen(), id, n, store.io.pageSize)
      requires forall j :: i < j < |planned| ==> planned[j].id != id
      ensures Readable(map[id := writes[i].bytes], id, n, store.io.pageSize)
    {
      hide Image, Flush, ContentSize;
      FlushLatest(store.io.pages, planned, store.io.pageSize, i);
    }

    lemma SeenDisk(id: PageId, n: Node)
      requires Readable(Seen(), id, n, store.io.pageSize)
      requires forall j :: 0 <= j < |planned| ==> planned[j].id != id
      ensures Readable(map[id := PageAt(store.io.pages, id, store.io.pageSize)], id, n, store.io.pageSize)
    {
      hide Image, Flush, ContentSize;
      NeverWritten(planned, id);
      FlushElsewhere(store.io.pages, planned, store.io.pageSize, id);
    }

    method Alloc() returns (id: PageId)
      modifies store`free, store`next
      ensures id == NextId(old(Work())) && Work() == Allocated(old(Work()))
    {
      if store.free != [] {
        id := store.free[|store.free| - 1];
        store.free := store.free[..|store.free| - 1];
      } else {
        id := store.next;
        store.next := store.next + 1;
      }
    }

    method Write(id: PageId, page: Page, ghost n: Node)
      requires Valid() && Represents(page, n) && ContentSize(ContentOf(n)) <= store.io.pageSize
      modifies this`writes, this`planned
      ensures Valid() && planned == old(planned) + [PageWrite(id, n)]
    {
      hide Image, ContentSize;
      var bytes := PageToBytes(page, id, store.io.pageSize, n);
      writes := writes + [DiskWrite(id, bytes)];
      planned := planned + [PageWrite(id, n)];
      assert writes == Images(planned, store.io.pageSize);
    }

    method Free(id: PageId)
      modifies this`freed
      ensures Work() == Orphaned(old(Work()), id) && (old(Valid()) ==> Valid())
    {
      freed := freed + [id];
    }

    /** Applies the writes, folds in the orphans, passes the gate, persists the lists and the header, publishes the root. */
    method Commit(newRoot: PageId)
      requires Valid() && PageSizeOk(store.io.pageSize)
      modifies this`freed, store, store.io
      ensures store.State() == Committed(old(store.State()), planned, old(freed), newRoot, store.io.pageSize,
                                         old(store.readers) == 0)
      ensures store.readers == old(store.readers) && freed == []
    {
      hide Image, Gate, ChainGrown, ChainWrites, HeaderPage, HeaderOf, ContentSize, PagesNeeded, Flush, Applied,
           Payload;
      FlushWritesOut();
      PassGate();
      var head, count := PersistFreeList();
      var h := Header(store.io.pageSize, newRoot, store.next, head, count);
      HeaderIs(store.State().writer, newRoot, store.io.pageSize);
      var bytes := ToBytes(h, store.io.pageSize);
      store.io.WritePage(HEADER_PAGE_ID, bytes);
      store.root := newRoot;
    }

    /** The orphans become pending, and with no reader active the pending pages become reusable. */
    method PassGate()
      modifies this`freed, store`pending, store`free
      ensures store.State() == old(store.State()).(writer := Gate(old(store.State()).writer, old(freed), store.readers == 0))
      ensures freed == []
    {
      store.pending := store.pending + freed;
      freed := [];
      if store.readers == 0 {
        store.free := store.free + store.pending;
        store.pending := [];
      }
    }

    method FlushWritesOut()
      requires Valid()
      modifies store.io
      ensures store.io.pages == Flush(old(store.io.pages), planned, store.io.pageSize)
    {
      hide Image, ContentSize;
      for i := 0 to |writes|
        invariant Valid() && store.io.pages == Flush(old(store.io.pages), planned[..i], store.io.pageSize)
      {
        NextImage(old(store.io.pages), planned, i, store.io.pageSize);
        assert planned[i] in planned;
        store.io.WritePage(writes[i].id, writes[i].bytes);
      }
      assert planned[..|writes|] == planned;
    }

    /** Extends the chain if it is too short and writes the free and pending ids to it. */
    method PersistFreeList() returns (head: PageId, count: nat)
      requires PageSizeOk(store.io.pageSize)
      modifies store`chain, store`next, store.io
      ensures var w := ChainGrown(old(store.State()).writer, store.io.pageSize);
              && PagesNeeded(w, store.io.pageSize) <= |w.chain|
              && store.State() == Snapshot(Applied(old(store.io.pages), ChainWrites(w, store.io.pageSize)), old(store.root), w)
              && head == HeadOf(UsedChain(w, store.io.pageSize)) && count == |Payload(w)|
    {
      hide Chunks, DivCeil, ChainImages, Applied, GrownChain;
      var cap := ChainCapacity(store.io.pageSize);
      var payload := store.free + store.pending;
      var pagesNeeded := DivCeil(|payload|, cap);
      ChunkTotal(payload, cap);
      GrowChain(pagesNeeded);
      WriteChainPages(payload, pagesNeeded, cap);
      head := if pagesNeeded > 0 then store.chain[0] else 0;
      count := |payload|;
    }

    method GrowChain(pagesNeeded: nat)
      modifies store`chain, store`next
      ensures store.State() == old(store.State()).(writer := GrownChain(old(store.State()).writer, pagesNeeded))
    {
      ghost var w := GrownChain(store.State().writer, pagesNeeded);
      while |store.chain| < pagesNeeded
        invariant store.State() == old(store.State()).(writer := store.State().writer)
        invariant store.free == old(store.free) && store.pending == old(store.pending)
        invariant GrownChain(store.State().writer, pagesNeeded) == w
        decreases pagesNeeded - |store.chain|
      {
        var id := store.next;
        store.next := store.next + 1;
        store.chain := store.chain + [id];
      }
    }

    method WriteChainPages(payload: seq<PageId>, pagesNeeded: nat, cap: nat)
      requires cap >= 1 && FREE_LIST_HEADER + 8 * cap <= store.io.pageSize
      requires pagesNeeded == |Chunks(payload, cap)| <= |store.chain|
      modifies store.io
      ensures store.io.pages == Applied(old(store.io.pages),
                ChainImages(store.chain[..pagesNeeded], Chunks(payload, cap), store.io.pageSize))
    {
      hide Chunks, ChainImages, Applied, FreeListBytes;
      ghost var used, d := store.chain[..pagesNeeded], store.io.pages;
      ghost var images := ChainImages(used, Chunks(payload, cap), store.io.pageSize);
      NothingApplied(d, images);
      for i := 0 to pagesNeeded
        invariant store.io.pages == Applied(d, images[..i])
      {
        var id := store.chain[i];
        var next := if i + 1 < pagesNeeded then store.chain[i + 1] else 0;
        ChunkAt(payload, cap, i);
        var chunk := payload[i * cap..if (i + 1) * cap <= |payload| then (i + 1) * cap else |payload|];
        ChainImageAt(used, Chunks(payload, cap), store.io.pageSize, i);
        HeadOfRest(store.chain, pagesNeeded, i);
        ChunkInChunks(payload, cap, i);
        var bytes := FreeListEncode(id, next, chunk, store.io.pageSize);
        AppliedNext(d, images, i);
        store.io.WritePage(id, bytes);
      }
      assert images[..pagesNeeded] == images;
    }
  }

  lemma NothingApplied(d: Disk, writes: seq<DiskWrite>)
    ensures Applied(d, writes[..0]) == d
  {
  }

  lemma HeaderIs(w: Writer, root: PageId, pageSize: nat)
    requires pageSize >= MIN_PAGE_SIZE && PagesNeeded(w, pageSize) <= |w.chain|
    ensures HeaderOf(w, root, pageSize)
         == Header(pageSize, root, w.next, HeadOf(UsedChain(w, pageSize)), |Payload(w)|)
  {
  }

  lemma ChunkInChunks(ids: seq<PageId>, cap: nat, i: nat)
    requires cap >= 1 && i < |Chunks(ids, cap)|
    ensures |Chunks(ids, cap)[i]| <= cap
  {
    assert Chunks(ids, cap)[i] in Chunks(ids, cap);
  }
}
