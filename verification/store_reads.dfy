/**
 What a reader gets from the bytes on disk. A lookup decodes one page per level, and other steps may run between its
 page reads, so each level may see the disk of a different moment.
 */
module StoreReads {
  import opened Wrappers
  import opened ByteStrings
  import opened PageFormat
  import opened KeySearch
  import opened HeaderPages
  import opened TreeNodes
  import opened TreeInsert
  import opened TreeStock
  import opened TreeStorage
  import opened StoreSpec
  import opened StoreState
  import opened StoreProtocol
  import opened StoreSafety

  /** Descends from page `id`, reading level i from disk i; `None` where a read or a decoding would panic. */
  function ReadAlong(disks: seq<Disk>, id: PageId, key: Key): Option<Option<Value>>
    decreases |disks|
  {
    if disks == [] || id !in disks[0] then None
    else
      match Parse(id, disks[0][id])
      case None => None
      case Some(LeafContent(es)) => Some(FoundValue(es, Search(es, key)))
      case Some(InnerContent(keys, children)) =>
        var i := ChildRank(keys, key);
        if i < |children| then ReadAlong(disks[1..], children[i], key) else None
  }

  ghost predicate SmallIds(ids: multiset<PageId>) {
    forall id :: id in ids ==> id < U64_RANGE
  }

  /** A page that holds a node's image parses to that node's contents. */
  lemma HeldPageParses(d: Disk, id: PageId, t: Node, h: nat, pageSize: nat)
    requires Shaped(t, h) && Holds(d, id, t, pageSize) && pageSize <= U16_MAX
    requires SmallIds(multiset{id} + PagesBelow(t))
    ensures Parse(id, d[id]) == Some(ContentOf(t))
  {
    hide PagesBelow, Parse, Unpadded, ContentSize, PageBytes;
    assert id in multiset{id} + PagesBelow(t);
    if t.Inner? {
      forall x | x in t.ids
        ensures x < U64_RANGE
      {
        BelowInner(t);
        assert x in multiset{id} + PagesBelow(t);
      }
    }
    FittingIsEncodable(ContentOf(t));
    PageRoundTrip(ContentOf(t), id, d[id]);
  }

  /** With every disk storing the tree, a lookup from the bytes is a lookup in the tree. */
  lemma {:induction false} ReadAlongIsLookup(disks: seq<Disk>, id: PageId, t: Node, h: nat, pageSize: nat, key: Key)
    requires Shaped(t, h) && |disks| > h && pageSize <= U16_MAX
    requires forall d :: d in disks ==> Stored(d, id, t, h, pageSize)
    requires SmallIds(multiset{id} + PagesBelow(t))
    ensures ReadAlong(disks, id, key) == Some(Lookup(t, h, key))
    decreases h
  {
    hide PagesBelow, Parse, Search, ChildRank, FoundValue, Image, ContentSize;
    assert disks[0] in disks;
    HeldPageParses(disks[0], id, t, h, pageSize);
    if t.Inner? {
      var i := ChildRank(t.keys, key);
      KidPages(t, i);
      forall x | x in multiset{t.ids[i]} + PagesBelow(t.kids[i])
        ensures x < U64_RANGE
      {
        assert x in PagesBelow(t);
        assert x in multiset{id} + PagesBelow(t);
      }
      forall d | d in disks[1..]
        ensures Stored(d, t.ids[i], t.kids[i], h - 1, pageSize)
      {
        assert d in disks;
      }
      ReadAlongIsLookup(disks[1..], t.ids[i], t.kids[i], h - 1, pageSize, key);
    }
  }

  lemma GoodReads(disks: seq<Disk>, root: Rooted, pageSize: nat, key: Key)
    requires |disks| > root.height && pageSize <= U16_MAX && SmallIds(PagesOf(root))
    requires forall d :: d in disks ==> Good(root, d, pageSize)
    ensures Shaped(root.tree, root.height)
    ensures ReadAlong(disks, root.id, key) == Some(Get(MapOf(Entries(root.tree)), key))
  {
    hide PagesBelow, Sized, Stored, MapOf, Entries, ReadAlong, Lookup;
    assert disks[0] in disks;
    ReadAlongIsLookup(disks, root.id, root.tree, root.height, pageSize, key);
    LookupIsMapLookup(root.tree, root.height, None, None, key);
  }

  /* ---- Page ids in range ---- */

  /** Every page of the published tree, and of the tree the header names, has a 64-bit id. */
  lemma IdsFit(s: System)
    requires Inv(s)
    ensures SmallIds(PagesOf(s.published)) && SmallIds(PagesOf(HeaderTree(s))) && PageSizeOk(s.pageSize)
  {
    hide Folded, MapOf, Good, HeaderNames, Persisted, Accounted, AccountedInFlight, PagesOf, Flush, Applied,
         ChainWrites,
         PagesNeeded, Succeeds, WellFormed, RootStored, Written;
    forall id | id in PagesOf(s.published) || id in PagesOf(HeaderTree(s))
      ensures id < U64_RANGE
    {
      if s.phase.Idle? {
        StoreState.Parts(s.published, s.writer, s.leaked, id);
      } else if s.phase.Flushing? {
        PartsInFlight(s.published, s.writer, Written(s.phase.work.writes), s.leaked, id);
      } else {
        StoreState.Parts(s.phase.after, s.writer, s.leaked, id);
      }
    }
  }

  /* ---- The theorems ---- */

  /** The reader is still in at moment m, which lies after its load at step j. */
  ghost predicate ReadsAt(trace: seq<System>, steps: seq<Step>, j: nat, m: nat, r: Reader) {
    j < m < |trace| && j < |steps| && m <= |steps| && forall i :: j <= i < m ==> steps[i] != Exit(r)
  }

  function DisksAt(trace: seq<System>, moments: seq<nat>): (r: seq<Disk>)
    requires forall i :: 0 <= i < |moments| ==> moments[i] < |trace|
    ensures |r| == |moments|
  {
    seq(|moments|, i requires 0 <= i < |moments| => trace[moments[i]].disk)
  }

  /**
   Snapshot reads: a reader that loaded the root outside the window and then looks a key up, reading each level's page at any
   moment before it leaves, gets what the map published at its load holds for the key.
   */
  lemma SnapshotReads(d: Disk, pageSize: nat, trace: seq<System>, steps: seq<Step>, j: nat, r: Reader, key: Key,
                      moments: seq<nat>)
    requires Run(d, pageSize, trace, steps) && j < |steps| && steps[j] == Load(r) && !InWindow(trace[j])
    requires |moments| > trace[j].published.height
    requires forall i :: 0 <= i < |moments| ==> moments[i] < |trace| && ReadsAt(trace, steps, j, moments[i], r)
    ensures ReadAlong(DisksAt(trace, moments), trace[j].published.id, key) == Some(Get(Folded(trace[j].puts), key))
  {
    var x := trace[j].published;
    hide Inv, Good, PagesOf, Kept, Enabled, StoreProtocol.After, InWindow, Safe, ReadAlong, MapOf, Entries, Run, Folded;
    forall disk | disk in DisksAt(trace, moments)
      ensures Good(x, disk, pageSize)
    {
      var i :| 0 <= i < |moments| && trace[moments[i]].disk == disk;
      ReaderIsolation(d, pageSize, trace, steps, j, moments[i], r, key);
    }
    RunInv(d, pageSize, trace, steps, j);
    IdsFit(trace[j]);
    PublishedFacts(trace[j]);
    GoodReads(DisksAt(trace, moments), x, pageSize, key);
  }

  /** A lookup after a crash: the root named by the header page, every page from the one disk. */
  function Recovered(d: Disk, height: nat, key: Key): Option<Option<Value>>
    requires HEADER_PAGE_ID in d && FromBytes(d[HEADER_PAGE_ID]).Decoded?
  {
    ReadAlong(seq(height + 1, _ => d), FromBytes(d[HEADER_PAGE_ID]).header.rootId, key)
  }

  /**
   Crash recovery: at every moment of every run, looking any key up through the header's root in the bytes then on disk gives
   the map before the current put until its header is written, and the map after it from then on.
   */
  lemma RecoveredMap(d: Disk, pageSize: nat, trace: seq<System>, steps: seq<Step>, k: nat, key: Key)
    requires Run(d, pageSize, trace, steps) && k < |trace|
    ensures var s := trace[k];
            && HEADER_PAGE_ID in s.disk && FromBytes(s.disk[HEADER_PAGE_ID]).Decoded?
            && Recovered(s.disk, HeaderTree(s).height, key)
               == Some(Get(Folded(if s.phase.Publishing? then s.puts + [s.phase.entry] else s.puts), key))
  {
    hide Inv, Good, PagesOf, Enabled, StoreProtocol.After, ReadAlong, MapOf, Entries, Run, Folded, FromBytes,
         HeaderTree;
    CommitIsAtomic(d, pageSize, trace, steps, k);
    RunInv(d, pageSize, trace, steps, k);
    var s := trace[k];
    IdsFit(s);
    GoodReads(seq(HeaderTree(s).height + 1, _ => s.disk), HeaderTree(s), pageSize, key);
  }
}
