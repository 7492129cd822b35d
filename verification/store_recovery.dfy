/**
 What opening the disk gives when the process stops at any point of a run. The tree the header names is always intact
 (`StoreSafety.CommitIsAtomic`); whether the free list recovered with it is sound depends on how much of the
 chain a commit has rewritten in place, and the exact condition is `StillWhole`.
 */
module StoreRecovery {
  import opened ByteStrings
  import opened PageFormat
  import opened SplitPoints
  import opened KeySearch
  import opened FreeListPages
  import opened HeaderPages
  import opened TreeNodes
  import opened TreeInsert
  import opened TreeStock
  import opened TreeStorage
  import opened StoreSpec
  import opened StoreState
  import opened StorePut
  import opened StoreProtocol
  import opened StoreSafety
  import opened StoreRuns
  import opened StoreWindow
  import opened StoreCrash

  /* ---- Opening a disk ---- */

  /** Opening the disk reads this store: header fields, and the free list and chain pages of the walk from its head. */
  ghost predicate Opens(d: Disk, pageSize: nat, s: Snapshot) {
    && HEADER_PAGE_ID in d && FromBytes(d[HEADER_PAGE_ID]).Decoded?
    && var h := FromBytes(d[HEADER_PAGE_ID]).header;
    && h.pageSize == pageSize && s.disk == d && s.root == h.rootId
    && s.writer.next == h.nextPageId && s.writer.pending == []
    && ChainOnDisk(d, h.freeListHead, s.writer.chain, s.writer.free)
  }

  /** Opening the disk reads this store, in which no page of the tree is reusable and none plays two parts. */
  ghost predicate OpensSound(d: Disk, root: Rooted, pageSize: nat, s: Snapshot, leaked: multiset<PageId>) {
    && Opens(d, pageSize, s) && s.root == root.id && Good(root, d, pageSize)
    && s.writer.next < U64_RANGE && Accounted(root, s.writer, leaked)
  }

  /** It also reads what a commit would have left there. */
  ghost predicate OpensConsistent(d: Disk, root: Rooted, pageSize: nat, s: Snapshot, leaked: multiset<PageId>) {
    Opens(d, pageSize, s) && Consistent(s, root, leaked, pageSize)
  }

  /** Opening the disk gives a store with this tree and sound page lists. */
  ghost predicate SoundlyOpens(d: Disk, root: Rooted, pageSize: nat) {
    exists s, leaked :: OpensSound(d, root, pageSize, s, leaked)
  }

  /** Opening the disk gives a consistent store whose tree is this one. */
  ghost predicate Recovers(d: Disk, root: Rooted, pageSize: nat) {
    exists s, leaked :: OpensConsistent(d, root, pageSize, s, leaked)
  }

  lemma RecoversSoundly(d: Disk, root: Rooted, pageSize: nat)
    requires Recovers(d, root, pageSize)
    ensures SoundlyOpens(d, root, pageSize)
  {
    hide Opens, Accounted, WellFormed, RootStored, Persisted;
    var s, leaked :| OpensConsistent(d, root, pageSize, s, leaked);
    assert s.disk == d by { OpensItself(d, pageSize, s); }
    assert OpensSound(d, root, pageSize, s, leaked);
  }

  lemma OpensItself(d: Disk, pageSize: nat, s: Snapshot)
    requires Opens(d, pageSize, s)
    ensures s.disk == d
  {
  }

  /** A disk whose header and chain describe accounted lists recovers. */
  lemma PersistedRecovers(d: Disk, root: Rooted, w: Writer, leaked: multiset<PageId>, pageSize: nat)
    requires PageSizeOk(pageSize) && Good(root, d, pageSize) && w.next < U64_RANGE
    requires Accounted(root, w, leaked) && Persisted(d, root.id, w, pageSize)
    ensures Recovers(d, root, pageSize)
  {
    hide Accounted, WellFormed, RootStored, ChainOnDisk, FromBytes, PagesNeeded, UsedChain, Held, ChainWrites;
    var s := Snapshot(d, root.id, w);
    ReopenRecovers(s, root, leaked, pageSize);
    var leaked' := leaked + multiset(w.chain[PagesNeeded(w, pageSize)..]);
    hide Consistent;
    assert OpensConsistent(d, root, pageSize, Reopened(s, pageSize), leaked');
  }

  /* ---- What a put in progress has done to the disk ---- */

  /** A chain page no longer in use still holds ids of an earlier list, none of them a chain page or leaked. */
  ghost predicate StalePage(d: Disk, id: PageId, w: Writer, leaked: multiset<PageId>) {
    id in d &&
    match ParseFreeList(id, d[id])
    case None => false
    case Some((_, chunk)) =>
      chunk != [] && forall x :: x in chunk ==> 0 < x < w.next && x !in w.chain && x !in leaked
  }

  ghost predicate StaleOk(d: Disk, w: Writer, leaked: multiset<PageId>, pageSize: nat)
    requires pageSize >= MIN_PAGE_SIZE
  {
    forall i :: PagesNeeded(w, pageSize) <= i < |w.chain| ==> StalePage(d, w.chain[i], w, leaked)
  }

  /** The lists and the chain the put started from are still described by this disk. */
  ghost predicate SavedOk(d: Disk, root: Rooted, saved: Writer, work: Work, leaked: multiset<PageId>, pageSize: nat)
    requires pageSize >= MIN_PAGE_SIZE
  {
    && saved.next < U64_RANGE && Accounted(root, saved, leaked) && Persisted(d, root.id, saved, pageSize)
    && DrawsFirst(Fresh(saved), work) && work.writes != [] && (forall id :: id in work.freed ==> id in PagesOf(root))
    && StaleOk(d, saved, leaked, pageSize)
  }

  /** How many chain pages the commit has written. */
  function WrittenCount(s: System): int
    requires s.phase.Chaining? && s.pageSize >= MIN_PAGE_SIZE && PagesNeeded(s.writer, s.pageSize) <= |s.writer.chain|
  {
    |ChainWrites(s.writer, s.pageSize)| - |s.phase.todo|
  }

  ghost predicate PartlyChained(s: System)
    requires s.phase.Chaining? && s.pageSize >= MIN_PAGE_SIZE
  {
    && PagesNeeded(s.writer, s.pageSize) <= |s.writer.chain|
    && var images, k := ChainWrites(s.writer, s.pageSize), WrittenCount(s);
    && k >= 0 && s.phase.todo == images[k..] && s.disk == Applied(s.phase.gated, images[..k])
  }

  ghost predicate ProgressOk(s: System) {
    s.pageSize >= MIN_PAGE_SIZE &&
    match s.phase
    case Idle => StaleOk(s.disk, s.writer, s.leaked, s.pageSize)
    case Flushing(_, _, work, _, saved, _) =>
      SavedOk(s.disk, s.published, saved, work, s.leaked, s.pageSize) && s.writer == Drawn(saved, work)
    case Chaining(_, _, work, gated, saved, _, promoted) =>
      && SavedOk(gated, s.published, saved, work, s.leaked, s.pageSize)
      && s.writer == ChainGrown(Gate(Drawn(saved, work), work.freed, promoted), s.pageSize)
      && PartlyChained(s)
    case Publishing(_, _, _) => StaleOk(s.disk, s.writer, s.leaked, s.pageSize)
  }

  /** A put orphans pages of the tree it started from only. */
  lemma {:induction false} InsertFreesOld(t: Node, h: nat, e: Entry, pageSize: nat, w: Work)
    requires Shaped(t, h)
    ensures forall id :: id in InsertInto(t, h, e, pageSize, w).1.freed ==> id in w.freed || id in PagesBelow(t)
    decreases h
  {
    hide ChildRank, InsertLeaf, Absorb, PagesBelow;
    if t.Inner? {
      var i := ChildRank(t.keys, e.key);
      InsertFreesOld(t.kids[i], h - 1, e, pageSize, w);
      var (result, w1) := InsertInto(t.kids[i], h - 1, e, pageSize, w);
      AbsorbDraws(t, i, result, Orphaned(w1, t.ids[i]), pageSize);
      KidPages(t, i);
      forall id | id == t.ids[i] || id in PagesBelow(t.kids[i])
        ensures id in PagesBelow(t)
      {
        assert id in multiset{t.ids[i]} + PagesBelow(t.kids[i]);
      }
    }
  }

  lemma PutFreesOld(root: Rooted, e: Entry, pageSize: nat, w: Work)
    requires Shaped(root.tree, root.height) && w.freed == []
    ensures forall id :: id in PutTree(root, e, pageSize, w).1.freed ==> id in PagesOf(root)
  {
    hide InsertInto, PagesBelow;
    InsertFreesOld(root.tree, root.height, e, pageSize, w);
  }

  /** A page that is neither the header nor in the chain can be overwritten without touching what is persisted. */
  lemma PersistedElsewhere(d: Disk, root: PageId, w: Writer, pageSize: nat, id: PageId, bytes: Bytes)
    requires pageSize >= MIN_PAGE_SIZE && Persisted(d, root, w, pageSize) && id != HEADER_PAGE_ID && id !in w.chain
    ensures Persisted(d[id := bytes], root, w, pageSize)
  {
    hide HeaderPage, PagesNeeded, ChainOnDisk, ChainImages;
    var used := UsedChain(w, pageSize);
    assert forall x :: x in used ==> x in w.chain;
    ChainFrame(d, d[id := bytes], HeadOf(used), used, Payload(w));
  }

  /* ---- Every step keeps that account ---- */

  lemma StaleElsewhere(d: Disk, w: Writer, leaked: multiset<PageId>, pageSize: nat, id: PageId, bytes: Bytes)
    requires pageSize >= MIN_PAGE_SIZE && StaleOk(d, w, leaked, pageSize) && id !in w.chain
    ensures StaleOk(d[id := bytes], w, leaked, pageSize)
  {
    hide ParseFreeList, PagesNeeded;
  }

  lemma PutWrites(root: Rooted, e: Entry, pageSize: nat, w: Work)
    requires Shaped(root.tree, root.height)
    ensures PutTree(root, e, pageSize, w).1.writes != []
  {
    hide InsertInto;
  }

  lemma BeginProgress(s: System, e: Entry)
    requires Inv(s) && ProgressOk(s) && Enabled(s, Begin(e))
    ensures ProgressOk(StoreProtocol.After(s, Begin(e)))
  {
    hide Good, HeaderNames, Accounted, Persisted, Folded, MapOf, WellFormed, RootStored, PagesOf, PutTree, DrawsFirst,
         StaleOk;
    PutDraws(s.published, e, s.pageSize, Fresh(s.writer));
    PutFreesOld(s.published, e, s.pageSize, Fresh(s.writer));
    PutWrites(s.published, e, s.pageSize, Fresh(s.writer));
  }

  lemma WriteImageProgress(s: System)
    requires Inv(s) && ProgressOk(s) && Enabled(s, WriteImage)
    ensures ProgressOk(StoreProtocol.After(s, WriteImage))
  {
    hide Good, Succeeds, HeaderNames, Accounted, AccountedInFlight, Persisted, Folded, MapOf, WellFormed, RootStored,
         PagesOf, Written, Flush, Image, DrawsFirst, StaleOk;
    var p := s.phase;
    var w := p.work.writes[p.done];
    WritesApart(s.published, s.writer, p.work.writes, s.leaked);
    NextImage(p.base, p.work.writes, p.done, s.pageSize);
    PersistedElsewhere(s.disk, s.published.id, p.saved, s.pageSize, w.id, Image(w.node, w.id, s.pageSize));
    StaleElsewhere(s.disk, p.saved, s.leaked, s.pageSize, w.id, Image(w.node, w.id, s.pageSize));
  }

  lemma GateProgress(s: System)
    requires Inv(s) && ProgressOk(s) && Enabled(s, PassGate)
    ensures ProgressOk(StoreProtocol.After(s, PassGate))
  {
    hide Good, Succeeds, HeaderNames, Accounted, AccountedInFlight, Persisted, Folded, MapOf, WellFormed, RootStored,
         PagesOf, Written, Flush, DrawsFirst, PagesNeeded, Applied, ChainWrites, Drawn, Gate, StaleOk, SavedOk;
    GrownEnough(Gate(s.writer, s.phase.work.freed, s.readers == map[]), s.pageSize);
    var images := ChainWrites(StoreProtocol.After(s, PassGate).writer, s.pageSize);
    NothingYet(s.disk, images);
  }

  lemma NothingYet(d: Disk, writes: seq<DiskWrite>)
    ensures Applied(d, writes[..0]) == d && writes[0..] == writes
  {
  }

  lemma WriteChainProgress(s: System)
    requires ProgressOk(s) && Enabled(s, WriteChain)
    ensures ProgressOk(StoreProtocol.After(s, WriteChain))
  {
    hide SavedOk, Applied, PagesNeeded, ChainWrites, ChainGrown, Gate, Drawn;
    var images, k := ChainWrites(s.writer, s.pageSize), WrittenCount(s);
    AppliedNext(s.phase.gated, images, k);
    assert images[k..][0] == images[k] && images[k..][1..] == images[k + 1..];
  }

  lemma ProgressStep(s: System, step: Step)
    requires Inv(s) && ProgressOk(s) && Enabled(s, step)
    ensures ProgressOk(StoreProtocol.After(s, step))
  {
    match step
    case Begin(e) => BeginProgress(s, e);
    case WriteImage => WriteImageProgress(s);
    case PassGate => GateProgress(s);
    case WriteChain => WriteChainProgress(s);
    case WriteHeader => HeaderProgress(s);
    case _ => OtherProgress(s, step);
  }

  lemma OtherProgress(s: System, step: Step)
    requires ProgressOk(s) && Enabled(s, step)
    requires step.Enter? || step.Load? || step.Exit? || step == Publish || step == Reopen
    ensures ProgressOk(StoreProtocol.After(s, step))
  {
    hide SavedOk, Applied, PagesNeeded, ChainWrites, ChainGrown, Gate, Drawn, StaleOk;
    if step == Reopen {
      NoneStale(s.disk, s.published, s.writer, StoreProtocol.After(s, step).leaked, s.pageSize);
    }
  }

  lemma NoneStale(d: Disk, root: Rooted, w: Writer, leaked: multiset<PageId>, pageSize: nat)
    requires pageSize >= MIN_PAGE_SIZE && PagesNeeded(w, pageSize) <= |w.chain|
    ensures StaleOk(d, Reopened(Snapshot(d, root.id, w), pageSize).writer, leaked, pageSize)
  {
    hide Chunks;
    assert Payload(w) + [] == Payload(w);
  }

  lemma {:induction false} RunProgress(d: Disk, pageSize: nat, trace: seq<System>, steps: seq<Step>, k: nat)
    requires Run(d, pageSize, trace, steps) && k < |trace|
    ensures ProgressOk(trace[k])
    decreases k
  {
    hide Inv, Enabled, ProgressOk, StoreProtocol.After;
    if k == 0 {
      CreatedProgress(d, pageSize);
    } else {
      RunProgress(d, pageSize, trace, steps, k - 1);
      RunInv(d, pageSize, trace, steps, k - 1);
      assert Follows(trace[k - 1], steps[k - 1], trace[k - 1 + 1]);
      ProgressStep(trace[k - 1], steps[k - 1]);
    }
  }

  lemma CreatedProgress(d: Disk, pageSize: nat)
    requires pageSize >= MIN_PAGE_SIZE
    ensures ProgressOk(Created(d, pageSize))
  {
  }

  /* ---- The disk with part of the chain rewritten ---- */

  /** The chunks the header's chain held, and those the commit is writing over them. */
  function OldChunks(s: System): seq<seq<PageId>>
    requires s.phase.Chaining? && s.pageSize >= MIN_PAGE_SIZE
  {
    Chunks(Payload(s.phase.saved), ChainCapacity(s.pageSize))
  }

  function NewChunks(s: System): seq<seq<PageId>>
    requires s.pageSize >= MIN_PAGE_SIZE
  {
    Chunks(Payload(s.writer), ChainCapacity(s.pageSize))
  }

  /**
   What is on disk opens consistently: the header names no chain, or the pages rewritten so far say what they said before
   and neither end the walk early nor lead it to a page the header's chain does not have.
   */
  ghost predicate StillWhole(s: System)
    requires s.phase.Chaining? && s.pageSize >= MIN_PAGE_SIZE && PagesNeeded(s.writer, s.pageSize) <= |s.writer.chain|
  {
    var k := WrittenCount(s);
    || OldChunks(s) == []
    || (0 <= k < |OldChunks(s)| && k < |NewChunks(s)| && NewChunks(s)[..k] == OldChunks(s)[..k])
  }

  /** The old list is the reusable pages kept, those drawn and the pending ones; the new one those kept, pending and orphaned. */
  ghost predicate NewList(saved: Writer, freed: seq<PageId>, n: seq<PageId>, kept: nat) {
    && kept <= |saved.free| && (saved.free[kept..] == [] ==> saved.free == [])
    && n == saved.free[..kept] + saved.pending + freed
  }

  lemma Payloads(saved: Writer, work: Work, promoted: bool, pageSize: nat) returns (kept: nat)
    requires pageSize >= MIN_PAGE_SIZE && DrawsFirst(Fresh(saved), work) && work.writes != []
    ensures NewList(saved, work.freed, Payload(ChainGrown(Gate(Drawn(saved, work), work.freed, promoted), pageSize)), kept)
  {
    hide Chunks;
    kept := |work.free|;
    assert work.free == saved.free[..kept];
  }

  lemma OldList(saved: Writer, kept: nat)
    requires kept <= |saved.free|
    ensures Payload(saved) == saved.free[..kept] + saved.free[kept..] + saved.pending
  {
    assert saved.free == saved.free[..kept] + saved.free[kept..];
  }

  /** Overwriting a prefix of one list by that of the other repeats an id or frees a page in use, unless the prefixes agree. */
  lemma MixedList(n: seq<PageId>, o: seq<PageId>, kept: seq<PageId>, drawn: seq<PageId>, pending: seq<PageId>,
                  freed: seq<PageId>, cut: nat, used: multiset<PageId>)
    requires n == kept + pending + freed && o == kept + drawn + pending && cut < |n| && cut < |o|
    requires forall id :: id in freed ==> id in used
    ensures var e := n[..cut] + o[cut..];
            n[..cut] == o[..cut] || !Distinct(e) || exists id :: id in e && id in used
  {
    var e := n[..cut] + o[cut..];
    if cut <= |kept| {
      assert n[..cut] == kept[..cut] == o[..cut];
    } else if cut > |kept| + |pending| {
      assert e[|kept| + |pending|] == freed[0];
      assert freed[0] in e && freed[0] in used;
    } else if drawn == [] {
      assert n[..cut] == (kept + pending)[..cut] == o[..cut];
    } else {
      var j := cut - |kept| - 1;
      var twin := |kept| + |drawn| + j;
      assert e[cut - 1] == n[cut - 1] == pending[j] == o[twin] == e[twin];
    }
  }

  /* ---- Between the gate and the header write ---- */

  /** The facts about a partly written chain that the cases below share. */
  ghost predicate MidChain(s: System) {
    && s.phase.Chaining? && PageSizeOk(s.pageSize)
    && var saved, pageSize := s.phase.saved, s.pageSize;
    && PagesNeeded(saved, pageSize) <= |saved.chain| && PagesNeeded(s.writer, pageSize) <= |s.writer.chain|
    && saved.chain <= s.writer.chain && Distinct(s.writer.chain) && RealIds(s.writer.chain)
    && RealIds(Payload(saved)) && RealIds(Payload(s.writer))
    && 0 <= WrittenCount(s) <= |ChainWrites(s.writer, pageSize)|
    && s.disk == Applied(s.phase.gated, ChainWrites(s.writer, pageSize)[..WrittenCount(s)])
    && Held(s.phase.gated, ChainWrites(saved, pageSize))
    && HEADER_PAGE_ID in s.disk && s.disk[HEADER_PAGE_ID] == HeaderPage(HeaderOf(saved, s.published.id, pageSize), pageSize)
    && FromBytes(s.disk[HEADER_PAGE_ID]) == Decoded(HeaderOf(saved, s.published.id, pageSize))
  }

  lemma MidChainFacts(s: System)
    requires Inv(s) && ProgressOk(s) && s.phase.Chaining?
    ensures MidChain(s)
  {
    hide Good, Succeeds, HeaderNames, Accounted, OldPagesKept, Folded, MapOf, WellFormed, RootStored, PagesOf, PagesNeeded,
         ChainWrites, Held, ChainOnDisk, FromBytes, HeaderPage, HeaderOf, Distinct, RealIds, Applied, UsedChain, DrawsFirst,
         Drawn, Gate, GrownChain;
    var p := s.phase;
    var images := ChainWrites(s.writer, s.pageSize);
    ChainApart(p.after, s.writer, s.leaked);
    ChainApart(s.published, p.saved, s.leaked);
    FieldsInRange(s.published, p.saved, s.leaked, s.pageSize);
    HeaderDecodes(p.saved, s.published.id, s.pageSize);
    SavedChain(p.saved, p.work, p.promoted, s.pageSize);
    AppliedElsewhere(p.gated, images[..WrittenCount(s)], HEADER_PAGE_ID);
  }

  /** The put extends the chain at the end of the file, and only when the new list needs more pages than it has. */
  lemma SavedChain(saved: Writer, work: Work, promoted: bool, pageSize: nat)
    requires pageSize >= MIN_PAGE_SIZE && DrawsFirst(Fresh(saved), work)
    ensures var w := ChainGrown(Gate(Drawn(saved, work), work.freed, promoted), pageSize);
            && saved.chain <= w.chain && saved.next <= w.next
            && (PagesNeeded(w, pageSize) < |w.chain| ==> w.chain == saved.chain)
            && forall i :: |saved.chain| <= i < |w.chain| ==> w.chain[i] >= saved.next
  {
    hide GrownChain, Chunks;
    var g := Gate(Drawn(saved, work), work.freed, promoted);
    GrownKeeps(g, PagesNeeded(g, pageSize));
  }

  /** A chain page in use qualifies for when it is not. */
  lemma UsedStale(d: Disk, root: Rooted, w: Writer, leaked: multiset<PageId>, pageSize: nat, i: nat)
    requires PageSizeOk(pageSize) && Accounted(root, w, leaked) && w.next < U64_RANGE
    requires i < PagesNeeded(w, pageSize) <= |w.chain| && Held(d, ChainWrites(w, pageSize))
    ensures StalePage(d, w.chain[i], w, leaked)
  {
    hide Accounted, PagesOf, RealIds, ParseFreeList, ChainImage, ChainImages, ChunksFit, Joined, Chunks;
    var used, chunks := UsedChain(w, pageSize), Chunks(Payload(w), ChainCapacity(pageSize));
    ChainApart(root, w, leaked);
    UsedReal(w.chain, |used|);
    PayloadChunks(Payload(w), pageSize);
    ChunkElements(Payload(w), ChainCapacity(pageSize));
    ChainImageAt(used, chunks, pageSize, i);
    HeadOfRest(w.chain, |used|, i);
    assert chunks[i] in chunks;
    PageInRange(w.chain, i);
    ChainPageRoundTrip(used[i], HeadOf(used[i + 1..]), chunks[i], pageSize);
    ChunkNotEmpty(Payload(w), ChainCapacity(pageSize), i);
    forall x | x in chunks[i]
      ensures 0 < x < w.next && x !in w.chain && x !in leaked
    {
      StoreState.Parts(root, w, leaked, x);
    }
    assert ChainWrites(w, pageSize)[i].id == w.chain[i];
  }

  lemma PageInRange(ids: seq<PageId>, i: nat)
    requires RealIds(ids) && i < |ids|
    ensures 0 < ids[i] < U64_RANGE && (i + 1 < |ids| ==> ids[i + 1] < U64_RANGE)
  {
    assert ids[i] in ids;
    assert i + 1 < |ids| ==> ids[i + 1] in ids;
  }

  lemma ChunkNotEmpty(ids: seq<PageId>, cap: nat, i: nat)
    requires cap >= 1 && i < |Chunks(ids, cap)|
    ensures Chunks(ids, cap)[i] != []
  {
    ChunkAt(ids, cap, i);
    OneMoreTimes(i, cap);
  }

  lemma StaleLater(d: Disk, w: Writer, d': Disk, w': Writer, leaked: multiset<PageId>, id: PageId)
    requires StalePage(d, id, w, leaked) && id in d' && d'[id] == d[id] && w'.chain == w.chain && w.next <= w'.next
    ensures StalePage(d', id, w', leaked)
  {
    hide ParseFreeList;
  }

  lemma StaleBehind(s: System, i: nat)
    requires ProgressOk(s) && MidChain(s) && PagesNeeded(s.writer, s.pageSize) <= i < |s.writer.chain|
    ensures StalePage(s.disk, s.writer.chain[i], s.writer, s.leaked)
  {
    hide PagesNeeded, Held, FromBytes, HeaderPage, HeaderOf, RealIds, StalePage, ProgressOk, Applied, Accounted,
         ChainWrites, Distinct;
    var p := s.phase;
    SavedLists(s);
    if i < PagesNeeded(p.saved, s.pageSize) {
      UsedStale(p.gated, s.published, p.saved, s.leaked, s.pageSize, i);
    }
    InStale(p.gated, s.writer.chain[i], p.saved, s.leaked);
    ImageCount(s);
    BeyondWrites(s, i);
    StaleLater(p.gated, p.saved, s.disk, s.writer, s.leaked, s.writer.chain[i]);
  }

  /** A chain page not written yet is as it was at the gate. */
  lemma BeyondWrites(s: System, i: nat)
    requires MidChain(s) && WrittenCount(s) <= i < |s.writer.chain| && s.writer.chain[i] in s.phase.gated
    ensures s.writer.chain[i] in s.disk && s.disk[s.writer.chain[i]] == s.phase.gated[s.writer.chain[i]]
  {
    hide PagesNeeded, Held, FromBytes, HeaderPage, HeaderOf, RealIds, Applied, Chunks, Distinct;
    AppliedBeyond(s.phase.gated, s.writer.chain, ChainWrites(s.writer, s.pageSize), WrittenCount(s), i);
  }

  lemma AppliedBeyond(d: Disk, ids: seq<PageId>, writes: seq<DiskWrite>, k: nat, i: nat)
    requires Distinct(ids) && k <= |writes| <= |ids| && k <= i < |ids| && ids[i] in d
    requires forall j :: 0 <= j < |writes| ==> writes[j].id == ids[j]
    ensures ids[i] in Applied(d, writes[..k]) && Applied(d, writes[..k])[ids[i]] == d[ids[i]]
  {
    hide Applied;
    AppliedElsewhere(d, writes[..k], ids[i]);
  }

  lemma SavedLists(s: System)
    requires ProgressOk(s) && s.phase.Chaining?
    ensures var saved := s.phase.saved;
            && Accounted(s.published, saved, s.leaked) && saved.next < U64_RANGE
            && StaleOk(s.phase.gated, saved, s.leaked, s.pageSize)
            && saved.chain <= s.writer.chain && saved.next <= s.writer.next
            && (PagesNeeded(s.writer, s.pageSize) < |s.writer.chain| ==> s.writer.chain == saved.chain)
            && forall i :: |saved.chain| <= i < |s.writer.chain| ==> s.writer.chain[i] >= saved.next
  {
    hide Accounted, PagesOf, PagesNeeded, Persisted, PartlyChained, DrawsFirst, StaleOk, Drawn, Gate, ChainGrown;
    var p := s.phase;
    SavedChain(p.saved, p.work, p.promoted, s.pageSize);
  }

  lemma InStale(d: Disk, id: PageId, w: Writer, leaked: multiset<PageId>)
    requires StalePage(d, id, w, leaked)
    ensures id in d
  {
  }

  lemma AllStaleBehind(s: System)
    requires ProgressOk(s) && MidChain(s)
    ensures StaleOk(s.disk, s.writer, s.leaked, s.pageSize)
  {
    hide ProgressOk, StalePage, PagesNeeded, Held, FromBytes, HeaderPage, HeaderOf, RealIds, Applied, Distinct, ChainWrites;
    forall i | PagesNeeded(s.writer, s.pageSize) <= i < |s.writer.chain|
      ensures StalePage(s.disk, s.writer.chain[i], s.writer, s.leaked)
    {
      StaleBehind(s, i);
    }
  }

  lemma HeaderApart(s: System)
    requires Inv(s) && s.phase.Chaining?
    ensures HEADER_PAGE_ID !in s.writer.chain
  {
    hide Good, Succeeds, HeaderNames, Accounted, OldPagesKept, Folded, MapOf, PagesOf, PagesNeeded, Applied, ChainWrites;
    ChainApart(s.phase.after, s.writer, s.leaked);
  }

  /** The header write leaves the pages behind the new list as they were. */
  lemma HeaderProgress(s: System)
    requires Inv(s) && ProgressOk(s) && Enabled(s, WriteHeader)
    ensures ProgressOk(StoreProtocol.After(s, WriteHeader))
  {
    hide Good, Succeeds, HeaderNames, Accounted, OldPagesKept, Folded, MapOf, PagesOf, PagesNeeded, Applied, ChainWrites,
         HeaderPage, HeaderOf, SavedOk, MidChain, PartlyChained, StaleOk, Inv;
    MidChainFacts(s);
    AllStaleBehind(s);
    HeaderApart(s);
    var page := HeaderPage(HeaderOf(s.writer, s.phase.after.id, s.pageSize), s.pageSize);
    StaleElsewhere(s.disk, s.writer, s.leaked, s.pageSize, HEADER_PAGE_ID, page);
  }

  /* ---- While the header's chain still has pages to come ---- */

  /** The chunks on disk: those rewritten, then those still to be. */
  function MixedChunks(s: System): seq<seq<PageId>>
    requires s.phase.Chaining? && s.pageSize >= MIN_PAGE_SIZE && PagesNeeded(s.writer, s.pageSize) <= |s.writer.chain|
    requires 0 <= WrittenCount(s) <= |OldChunks(s)| && WrittenCount(s) <= |NewChunks(s)|
  {
    NewChunks(s)[..WrittenCount(s)] + OldChunks(s)[WrittenCount(s)..]
  }

  /** Short of the ends of both chains, the header's chain pages hold the mixed chunks, each page naming the next. */
  lemma MixedHeld(s: System)
    requires MidChain(s) && WrittenCount(s) < |OldChunks(s)| && WrittenCount(s) < |NewChunks(s)|
    ensures Held(s.disk, ChainImages(UsedChain(s.phase.saved, s.pageSize), MixedChunks(s), s.pageSize))
  {
    hide Payload, Chunks, ChainImages, ChainImage, HeaderPage, HeaderOf, FromBytes, RealIds, IsHeld, Applied, Distinct;
    var images := ChainImages(UsedChain(s.phase.saved, s.pageSize), MixedChunks(s), s.pageSize);
    forall i | 0 <= i < |images|
      ensures IsHeld(s.disk, images[i])
    {
      MixedPageHeld(s, i);
    }
  }

  lemma MixedPageHeld(s: System, i: nat)
    requires MidChain(s) && WrittenCount(s) < |OldChunks(s)| && WrittenCount(s) < |NewChunks(s)| && i < |OldChunks(s)|
    ensures IsHeld(s.disk, ChainImages(UsedChain(s.phase.saved, s.pageSize), MixedChunks(s), s.pageSize)[i])
  {
    hide Payload, Chunks, ChainImages, ChainImage, HeaderPage, HeaderOf, FromBytes, RealIds, Held, Applied, Distinct;
    ChainImageAt(UsedChain(s.phase.saved, s.pageSize), MixedChunks(s), s.pageSize, i);
    if i < WrittenCount(s) {
      RewrittenAt(s, i);
    } else {
      UntouchedAt(s, i);
    }
  }

  /** A page already rewritten names the next page of the chain, which it has. */
  lemma RewrittenAt(s: System, i: nat)
    requires MidChain(s) && i < WrittenCount(s) && i + 1 < |NewChunks(s)|
    ensures var image := ChainImage(s.writer.chain[i], s.writer.chain[i + 1], NewChunks(s)[i], s.pageSize);
            image.id in s.disk && s.disk[image.id] == image.bytes
  {
    hide Payload, Chunks, ChainImages, ChainImage, HeaderPage, HeaderOf, FromBytes, RealIds, Applied;
    var images, k, needed := ChainWrites(s.writer, s.pageSize), WrittenCount(s), |NewChunks(s)|;
    ChainImageAt(s.writer.chain[..needed], NewChunks(s), s.pageSize, i);
    HeadOfRest(s.writer.chain, needed, i);
    AppliedHolds(s.phase.gated, images[..k]);
    assert images[..k][i] == images[i];
  }

  /** A page not reached yet is as the header's chain has it. */
  lemma UntouchedAt(s: System, i: nat)
    requires MidChain(s) && WrittenCount(s) <= i < |OldChunks(s)|
    ensures var used := UsedChain(s.phase.saved, s.pageSize);
            var image := ChainImage(used[i], HeadOf(used[i + 1..]), OldChunks(s)[i], s.pageSize);
            image.id in s.disk && s.disk[image.id] == image.bytes
  {
    hide Payload, Chunks, ChainImages, ChainImage, HeaderPage, HeaderOf, FromBytes, RealIds, Applied;
    var old', images, k := ChainWrites(s.phase.saved, s.pageSize), ChainWrites(s.writer, s.pageSize), WrittenCount(s);
    ChainImageAt(UsedChain(s.phase.saved, s.pageSize), OldChunks(s), s.pageSize, i);
    assert old'[i].id == s.writer.chain[i];
    AppliedElsewhere(s.phase.gated, images[..k], old'[i].id);
  }

  lemma MixedFit(a: seq<seq<PageId>>, b: seq<seq<PageId>>, k: nat, pageSize: nat)
    requires k <= |a| && k <= |b| && ChunksFit(a, pageSize) && ChunksFit(b, pageSize)
    requires (forall c :: c in a ==> RealIds(c)) && forall c :: c in b ==> RealIds(c)
    ensures ChunksFit(a[..k] + b[k..], pageSize) && forall c :: c in a[..k] + b[k..] ==> RealIds(c)
  {
    hide RealIds;
    forall c | c in a[..k] + b[k..]
      ensures RealIds(c) && FREE_LIST_HEADER + 8 * |c| <= pageSize
    {
      assert c in a || c in b;
    }
  }

  /** The header's chain pages are real and distinct, and both lists are cut into chunks that fit them. */
  lemma ChunksOk(s: System)
    requires MidChain(s)
    ensures var used := UsedChain(s.phase.saved, s.pageSize);
            |used| == |OldChunks(s)| && RealIds(used) && Distinct(used) && s.pageSize <= U16_MAX
    ensures ChunksFit(OldChunks(s), s.pageSize) && forall c :: c in OldChunks(s) ==> RealIds(c)
    ensures ChunksFit(NewChunks(s), s.pageSize) && forall c :: c in NewChunks(s) ==> RealIds(c)
  {
    hide Payload, Chunks, Joined, ChainImages, HeaderPage, HeaderOf, FromBytes, RealIds, ChunksFit, Distinct, Held, Applied;
    PayloadChunks(Payload(s.writer), s.pageSize);
    PayloadChunks(Payload(s.phase.saved), s.pageSize);
    UsedReal(s.writer.chain, |OldChunks(s)|);
    assert s.phase.saved.chain[..|OldChunks(s)|] == s.writer.chain[..|OldChunks(s)|];
  }

  /** So the walk from the header's head reads the mixed chunks. */
  lemma MixedWalk(s: System)
    requires MidChain(s) && WrittenCount(s) < |OldChunks(s)| && WrittenCount(s) < |NewChunks(s)|
    ensures var used := UsedChain(s.phase.saved, s.pageSize);
            ChainOnDisk(s.disk, HeadOf(used), used, Joined(MixedChunks(s)))
  {
    hide PagesNeeded, OldChunks, NewChunks, UsedChain, HeaderPage, HeaderOf, FromBytes, RealIds, ChunksFit, Distinct, Held,
         Applied, ChainOnDisk, ChainImages;
    MixedHeld(s);
    ChunksOk(s);
    MixedFit(NewChunks(s), OldChunks(s), WrittenCount(s), s.pageSize);
    HeldChainReads(s.disk, UsedChain(s.phase.saved, s.pageSize), MixedChunks(s), s.pageSize);
  }

  lemma NothingPersisted(d: Disk, root: PageId, w: Writer, pageSize: nat)
    requires pageSize >= MIN_PAGE_SIZE && PagesNeeded(w, pageSize) == 0
    requires HEADER_PAGE_ID in d && d[HEADER_PAGE_ID] == HeaderPage(HeaderOf(w, root, pageSize), pageSize)
    ensures Persisted(d, root, w, pageSize)
  {
    hide HeaderPage;
  }

  /** While what is on disk says what it said, header and chain still describe the lists the put started from. */
  lemma WholePersisted(s: System)
    requires MidChain(s) && StillWhole(s)
    ensures Persisted(s.disk, s.published.id, s.phase.saved, s.pageSize)
  {
    hide Chunks, Payload, HeaderPage, HeaderOf, FromBytes, RealIds, Distinct, Applied, ChainOnDisk, ChainImages, ChainImage;
    var saved, k := s.phase.saved, WrittenCount(s);
    if OldChunks(s) == [] {
      NothingPersisted(s.disk, s.published.id, saved, s.pageSize);
    } else {
      assert MixedChunks(s) == OldChunks(s)[..k] + OldChunks(s)[k..] == OldChunks(s);
      MixedHeld(s);
      MixedWalk(s);
      ChunksJoin(Payload(saved), ChainCapacity(s.pageSize));
    }
  }

  /** What opening soundly would have to find: distinct reusable ids outside the tree, on chain pages below `next`. */
  lemma SoundWalk(s: System, x: Snapshot, leaked: multiset<PageId>)
    requires MidChain(s) && OpensSound(s.disk, s.published, s.pageSize, x, leaked)
    ensures ChainOnDisk(s.disk, HeadOf(UsedChain(s.phase.saved, s.pageSize)), x.writer.chain, x.writer.free)
    ensures Distinct(x.writer.free)
    ensures forall id :: id in x.writer.free ==> id !in PagesOf(s.published)
    ensures forall id :: id in x.writer.free || id in x.writer.chain ==> id < s.phase.saved.next
  {
    hide Accounted, WellFormed, RootStored, FromBytes, HeaderPage, RealIds, Distinct, Applied, ChainOnDisk, ChainImages,
         PagesOf, Chunks, Held;
    var w := x.writer;
    assert Payload(w) == w.free;
    ChainApart(s.published, w, leaked);
    forall id | id in w.free || id in w.chain
      ensures id < s.phase.saved.next && (id in w.free ==> id !in PagesOf(s.published))
    {
      StoreState.Parts(s.published, w, leaked, id);
    }
  }

  /** A prefix that says something else, with more of both chains to come: an id is listed twice, or a page of the tree is. */
  lemma MixedNotSound(s: System)
    requires MidChain(s) && ProgressOk(s) && WrittenCount(s) < |OldChunks(s)| && WrittenCount(s) < |NewChunks(s)|
    requires NewChunks(s)[..WrittenCount(s)] != OldChunks(s)[..WrittenCount(s)]
    ensures !SoundlyOpens(s.disk, s.published, s.pageSize)
  {
    hide SavedOk, OpensSound, PagesOf, ChainOnDisk;
    if SoundlyOpens(s.disk, s.published, s.pageSize) {
      var x, leaked :| OpensSound(s.disk, s.published, s.pageSize, x, leaked);
      var used := UsedChain(s.phase.saved, s.pageSize);
      SoundWalk(s, x, leaked);
      MixedWalk(s);
      ChainIsDetermined(s.disk, HeadOf(used), x.writer.chain, x.writer.free, used, Joined(MixedChunks(s)));
      MixedIsUnsound(s);
    }
  }

  lemma MixedIsUnsound(s: System)
    requires MidChain(s) && ProgressOk(s) && WrittenCount(s) < |OldChunks(s)| && WrittenCount(s) < |NewChunks(s)|
    requires NewChunks(s)[..WrittenCount(s)] != OldChunks(s)[..WrittenCount(s)]
    ensures var e := Joined(MixedChunks(s)); !Distinct(e) || exists id :: id in e && id in PagesOf(s.published)
  {
    hide ProgressOk, PagesOf, Chunks, Joined, Distinct, Held, HeaderPage, HeaderOf, FromBytes, RealIds, Applied, Payload;
    var p := s.phase;
    var kept := ListsInProgress(s);
    OldList(p.saved, kept);
    MixedLists(Payload(s.writer), Payload(p.saved), p.saved.free[..kept], p.saved.free[kept..], p.saved.pending,
               p.work.freed, ChainCapacity(s.pageSize), WrittenCount(s), PagesOf(s.published));
  }

  lemma ListsInProgress(s: System) returns (kept: nat)
    requires ProgressOk(s) && s.phase.Chaining?
    ensures NewList(s.phase.saved, s.phase.work.freed, Payload(s.writer), kept)
    ensures forall id :: id in s.phase.work.freed ==> id in PagesOf(s.published)
  {
    hide PagesOf, Accounted, Persisted, PartlyChained, ChainGrown, DrawsFirst, StaleOk, NewList, Payload;
    var p := s.phase;
    kept := Payloads(p.saved, p.work, p.promoted, s.pageSize);
  }

  lemma MixedLists(n: seq<PageId>, o: seq<PageId>, kept: seq<PageId>, drawn: seq<PageId>, pending: seq<PageId>,
                   freed: seq<PageId>, cap: nat, k: nat, used: multiset<PageId>)
    requires cap >= 1 && k < |Chunks(n, cap)| && k < |Chunks(o, cap)|
    requires n == kept + pending + freed && o == kept + drawn + pending && forall id :: id in freed ==> id in used
    ensures var e := Joined(Chunks(n, cap)[..k] + Chunks(o, cap)[k..]);
            Chunks(n, cap)[..k] == Chunks(o, cap)[..k] || !Distinct(e) || exists id :: id in e && id in used
  {
    hide Chunks, Joined;
    ChunksCut(n, cap, k);
    ChunksCut(o, cap, k);
    ChunksAgree(n, o, cap, k);
    JoinedConcat(Chunks(n, cap)[..k], Chunks(o, cap)[k..]);
    MixedList(n, o, kept, drawn, pending, freed, k * cap, used);
  }

  /** Pages written in a chain that goes on are read first, and lead any walk to the page after them. */
  lemma {:induction false} WalkThrough(d: Disk, chain: seq<PageId>, chunks: seq<seq<PageId>>, k: nat, pageSize: nat,
                                       walk: seq<PageId>, entries: seq<PageId>)
    requires |chain| == |chunks| && k < |chain| && pageSize <= U16_MAX && ChunksFit(chunks, pageSize)
    requires Distinct(chain) && RealIds(chain) && forall c :: c in chunks ==> RealIds(c)
    requires Held(d, ChainImages(chain, chunks, pageSize)[..k])
    requires ChainOnDisk(d, HeadOf(chain), walk, entries)
    ensures k < |walk| && walk[k] == chain[k] && Joined(chunks[..k]) <= entries
    ensures ChainOnDisk(d, chain[k], walk[k..], entries[|Joined(chunks[..k])|..])
    decreases k
  {
    hide ParseFreeList, RealIds, ChainImages, ChunksFit, Joined, ChainOnDisk, Held;
    TailFacts(chain, chunks, pageSize);
    if k == 0 {
      NothingJoined(chunks);
      WalkStarts(d, chain, walk, entries);
      assert walk[0..] == walk && entries[0..] == entries;
    } else {
      HeldRest(d, ChainImages(chain, chunks, pageSize), k);
      WalkTurns(d, chain, chunks, pageSize, walk, entries);
      WalkThrough(d, chain[1..], chunks[1..], k - 1, pageSize, walk[1..], entries[|chunks[0]|..]);
      JoinedPrefix(chunks, k);
      SkippedTwice(walk, k, entries, chunks[0], Joined(chunks[1..][..k - 1]));
    }
  }

  lemma WalkStarts(d: Disk, chain: seq<PageId>, walk: seq<PageId>, entries: seq<PageId>)
    requires chain != [] && chain[0] > 0 && ChainOnDisk(d, HeadOf(chain), walk, entries)
    ensures walk != [] && walk[0] == chain[0] && ChainOnDisk(d, chain[0], walk, entries)
  {
    hide ParseFreeList;
  }

  /** One page of the walk: its ids come first, and the page it names is next. */
  lemma WalkTurns(d: Disk, chain: seq<PageId>, chunks: seq<seq<PageId>>, pageSize: nat, walk: seq<PageId>, entries: seq<PageId>)
    requires |chain| == |chunks| > 0 && pageSize <= U16_MAX && ChunksFit(chunks, pageSize)
    requires Distinct(chain) && RealIds(chain) && forall c :: c in chunks ==> RealIds(c)
    requires IsHeld(d, ChainImages(chain, chunks, pageSize)[0]) && ChainOnDisk(d, HeadOf(chain), walk, entries)
    ensures ChainImages(chain, chunks, pageSize)[1..] == ChainImages(chain[1..], chunks[1..], pageSize)
    ensures walk != [] && chunks[0] <= entries
    ensures ChainOnDisk(d, HeadOf(chain[1..]), walk[1..], entries[|chunks[0]|..])
  {
    hide ParseFreeList, RealIds, ChainImage, ChainImages, ChunksFit;
    TailFacts(chain, chunks, pageSize);
    FirstImage(chain, chunks, pageSize);
    ChainPageRoundTrip(chain[0], HeadOf(chain[1..]), chunks[0], pageSize);
  }

  lemma JoinedPrefix(chunks: seq<seq<PageId>>, k: nat)
    requires 0 < k <= |chunks|
    ensures Joined(chunks[..k]) == chunks[0] + Joined(chunks[1..][..k - 1])
  {
    hide Joined;
    JoinedFirst(chunks[0], chunks[1..][..k - 1]);
    assert chunks[..k] == [chunks[0]] + chunks[1..][..k - 1];
  }

  lemma NothingJoined(chunks: seq<seq<PageId>>)
    ensures Joined(chunks[..0]) == []
  {
  }

  lemma SkippedTwice(walk: seq<PageId>, k: nat, entries: seq<PageId>, first: seq<PageId>, rest: seq<PageId>)
    requires 0 < k <= |walk| && first <= entries && rest <= entries[|first|..]
    ensures walk[1..][k - 1..] == walk[k..] && first + rest <= entries
    ensures entries[|first|..][|rest|..] == entries[|first + rest|..]
  {
    assert entries == first + entries[|first|..];
  }

  lemma HeldRest(d: Disk, writes: seq<DiskWrite>, k: nat)
    requires 0 < k <= |writes| && Held(d, writes[..k])
    ensures IsHeld(d, writes[0]) && Held(d, writes[1..][..k - 1])
  {
    assert writes[..k][0] == writes[0];
    var rest := writes[1..][..k - 1];
    forall i | 0 <= i < |rest|
      ensures rest[i].id in d && d[rest[i].id] == rest[i].bytes
    {
      assert rest[i] == writes[..k][i + 1];
    }
  }

  /** The walk has read the rewritten pages and the ids on them, and goes on to the page after them. */
  ghost predicate PastEnd(d: Disk, chain: seq<PageId>, n: seq<PageId>, read: nat, k: nat, walk: seq<PageId>,
                          free: seq<PageId>) {
    && read < |n| && k < |walk| && k < |chain| && walk[k] == chain[k] && n[..read] <= free
    && ChainOnDisk(d, chain[k], walk[k..], free[read..])
  }

  lemma WalkPastEnd(s: System, walk: seq<PageId>, free: seq<PageId>, k: nat, read: nat)
    requires MidChain(s) && k == WrittenCount(s) && OldChunks(s) != [] && k < |NewChunks(s)|
    requires read == k * ChainCapacity(s.pageSize)
    requires ChainOnDisk(s.disk, HeadOf(UsedChain(s.phase.saved, s.pageSize)), walk, free)
    ensures PastEnd(s.disk, s.writer.chain, Payload(s.writer), read, k, walk, free)
  {
    hide ChainOnDisk, Chunks, HeaderPage, HeaderOf, FromBytes, Payload, ChainImages, Held, Joined, RealIds, Distinct,
         Applied;
    RewrittenChain(s);
    WalkThrough(s.disk, UsedChain(s.writer, s.pageSize), NewChunks(s), k, s.pageSize, walk, free);
    ChunksCut(Payload(s.writer), ChainCapacity(s.pageSize), k);
  }

  /** Reading as many ids as the old list had reads an orphaned page, unless the put found nothing to reuse. */
  lemma PastPending(free: seq<PageId>, n: seq<PageId>, o: seq<PageId>, kept: seq<PageId>, drawn: seq<PageId>,
                    pending: seq<PageId>, freed: seq<PageId>, read: nat, used: multiset<PageId>)
    requires n == kept + pending + freed && o == kept + drawn + pending && |o| <= read < |n| && n[..read] <= free
    requires forall id :: id in freed ==> id in used
    ensures (exists id :: id in free && id in used) || (drawn == [] && read == |o| && n[..read] == kept + pending)
  {
    var at := |kept| + |pending|;
    if read > at {
      assert free[at] == n[..read][at] == n[at] == freed[0];
      assert freed[0] in free && freed[0] in used;
    }
  }

  lemma OldListRead(s: System)
    requires MidChain(s) && |OldChunks(s)| <= WrittenCount(s)
    ensures |Payload(s.phase.saved)| <= WrittenCount(s) * ChainCapacity(s.pageSize)
  {
    hide PagesNeeded, Held, FromBytes, HeaderPage, HeaderOf, RealIds, Applied, Chunks, Payload;
    ChunkTotal(Payload(s.phase.saved), ChainCapacity(s.pageSize));
    MoreTimes(|OldChunks(s)|, WrittenCount(s), ChainCapacity(s.pageSize));
  }

  lemma MoreTimes(a: nat, b: nat, cap: nat)
    requires a <= b
    ensures a * cap <= b * cap
  {
  }

  lemma PlaysAPart(root: Rooted, w: Writer, leaked: multiset<PageId>, id: PageId)
    requires Accounted(root, w, leaked) && 0 < id < w.next
    ensures id in PagesOf(root) || id in w.free || id in w.pending || id in w.chain || id in leaked
  {
    hide Accounted, PagesOf;
    OnePartEach(root, w, leaked, id);
  }

  /** The page after those rewritten is beyond the file's end, or holds ids of an older list: pages in use or pending by now. */
  lemma StaleRead(d: Disk, gated: Disk, root: Rooted, saved: Writer, leaked: multiset<PageId>, pageSize: nat,
                  chain: seq<PageId>, n: seq<PageId>, k: nat, walk: seq<PageId>, free: seq<PageId>)
    requires pageSize >= MIN_PAGE_SIZE && Accounted(root, saved, leaked) && StaleOk(gated, saved, leaked, pageSize)
    requires PagesNeeded(saved, pageSize) <= k && saved.free == []
    requires saved.chain <= chain && forall i :: |saved.chain| <= i < |chain| ==> chain[i] >= saved.next
    requires PastEnd(d, chain, n, |saved.pending|, k, walk, free) && n[..|saved.pending|] == saved.pending
    requires chain[k] in gated ==> chain[k] in d && d[chain[k]] == gated[chain[k]]
    requires forall id :: id in free ==> id !in PagesOf(root)
    requires forall id :: id in free || id in walk ==> id < saved.next
    ensures !Distinct(free)
  {
    hide PagesOf, ParseFreeList, Accounted, PagesNeeded, Distinct;
    var read := |saved.pending|;
    assert chain[k] in walk;
    assert StalePage(gated, saved.chain[k], saved, leaked);
    var y, chunk := free[read], ParseFreeList(chain[k], d[chain[k]]).value.1;
    assert free[read..][0] == y == chunk[0] && y in chunk;
    PlaysAPart(root, saved, leaked, y);
    TwiceListed(free, saved.pending);
  }

  lemma TwiceListed(free: seq<PageId>, pending: seq<PageId>)
    requires pending <= free && |pending| < |free| && free[|pending|] in pending
    ensures !Distinct(free)
  {
    var j :| 0 <= j < |pending| && pending[j] == free[|pending|];
    assert free[j] == free[|pending|];
  }

  /** Past the end of the header's chain the walk goes on: to an orphaned page's id, or to a page that spoils the list. */
  lemma PastEndUnsound(d: Disk, gated: Disk, root: Rooted, saved: Writer, leaked: multiset<PageId>, pageSize: nat,
                       chain: seq<PageId>, n: seq<PageId>, freed: seq<PageId>, kept: nat, read: nat, k: nat,
                       walk: seq<PageId>, free: seq<PageId>)
    requires pageSize >= MIN_PAGE_SIZE && Accounted(root, saved, leaked) && StaleOk(gated, saved, leaked, pageSize)
    requires PagesNeeded(saved, pageSize) <= k && |Payload(saved)| <= read
    requires saved.chain <= chain && forall i :: |saved.chain| <= i < |chain| ==> chain[i] >= saved.next
    requires PastEnd(d, chain, n, read, k, walk, free) && NewList(saved, freed, n, kept)
    requires chain[k] in gated ==> chain[k] in d && d[chain[k]] == gated[chain[k]]
    requires forall id :: id in freed ==> id in PagesOf(root)
    requires forall id :: id in free || id in walk ==> id < saved.next
    ensures !Distinct(free) || exists id :: id in free && id in PagesOf(root)
  {
    hide PagesOf, Accounted, PagesNeeded, Distinct, StaleOk, Payload, ChainOnDisk;
    OldList(saved, kept);
    PastPending(free, n, Payload(saved), saved.free[..kept], saved.free[kept..], saved.pending, freed, read, PagesOf(root));
    if forall id :: id in free ==> id !in PagesOf(root) {
      assert saved.free[..kept] + saved.pending == saved.pending;
      StaleRead(d, gated, root, saved, leaked, pageSize, chain, n, k, walk, free);
    }
  }

  lemma LongerIsUnsound(s: System, k: nat, walk: seq<PageId>, free: seq<PageId>)
    requires MidChain(s) && ProgressOk(s) && k == WrittenCount(s) && OldChunks(s) != [] && |OldChunks(s)| <= k < |NewChunks(s)|
    requires ChainOnDisk(s.disk, HeadOf(UsedChain(s.phase.saved, s.pageSize)), walk, free)
    requires forall id :: id in free || id in walk ==> id < s.phase.saved.next
    ensures !Distinct(free) || exists id :: id in free && id in PagesOf(s.published)
  {
    hide ProgressOk, PagesOf, ChainOnDisk, Payload, Chunks, Distinct, Held, Applied, RealIds, FromBytes,
         HeaderPage, HeaderOf, ChainWrites, StaleOk, Accounted, NewList;
    var p, read := s.phase, k * ChainCapacity(s.pageSize);
    OldListRead(s);
    WalkPastEnd(s, walk, free, k, read);
    SavedLists(s);
    var kept := ListsInProgress(s);
    if s.writer.chain[k] in p.gated {
      BeyondWrites(s, k);
    }
    PastEndUnsound(s.disk, p.gated, s.published, p.saved, s.leaked, s.pageSize, s.writer.chain, Payload(s.writer), p.work.freed,
                   kept, read, k, walk, free);
  }

  lemma LongerNotSound(s: System)
    requires MidChain(s) && ProgressOk(s) && OldChunks(s) != [] && |OldChunks(s)| <= WrittenCount(s) < |NewChunks(s)|
    ensures !SoundlyOpens(s.disk, s.published, s.pageSize)
  {
    hide ProgressOk, OpensSound, PagesOf, ChainOnDisk, Payload, Distinct, Held, Applied, RealIds, FromBytes, HeaderPage,
         HeaderOf;
    if SoundlyOpens(s.disk, s.published, s.pageSize) {
      var x, leaked :| OpensSound(s.disk, s.published, s.pageSize, x, leaked);
      SoundWalk(s, x, leaked);
      LongerIsUnsound(s, WrittenCount(s), x.writer.chain, x.writer.free);
    }
  }

  lemma RewrittenChain(s: System)
    requires MidChain(s) && OldChunks(s) != [] && NewChunks(s) != []
    ensures var used := UsedChain(s.writer, s.pageSize);
            && |used| == |NewChunks(s)| && RealIds(used) && Distinct(used) && s.pageSize <= U16_MAX
            && HeadOf(used) == HeadOf(UsedChain(s.phase.saved, s.pageSize))
            && Held(s.disk, ChainImages(used, NewChunks(s), s.pageSize)[..WrittenCount(s)])
    ensures ChunksFit(NewChunks(s), s.pageSize) && forall c :: c in NewChunks(s) ==> RealIds(c)
  {
    hide Chunks, HeaderPage, HeaderOf, FromBytes, Payload, ChainImages, RealIds, Distinct, Applied, ChunksFit, Held;
    ChunksOk(s);
    UsedReal(s.writer.chain, |NewChunks(s)|);
    AppliedApart(s.phase.gated, UsedChain(s.writer, s.pageSize), ChainWrites(s.writer, s.pageSize), WrittenCount(s));
  }

  lemma AppliedApart(d: Disk, ids: seq<PageId>, writes: seq<DiskWrite>, k: nat)
    requires Distinct(ids) && k <= |writes| == |ids| && forall i :: 0 <= i < |writes| ==> writes[i].id == ids[i]
    ensures Held(Applied(d, writes[..k]), writes[..k])
  {
    AppliedHolds(d, writes[..k]);
  }

  /** The whole chain rewritten: the old root is on the list. */
  lemma AllNotSound(s: System)
    requires Inv(s) && MidChain(s) && s.phase.todo == [] && OldChunks(s) != [] && NewChunks(s) != []
    ensures !SoundlyOpens(s.disk, s.published, s.pageSize)
  {
    assert s.published.id in PagesOf(s.published);
    hide Inv, OpensSound, PagesOf, ChainOnDisk, Chunks, HeaderPage, HeaderOf, FromBytes, Payload, ChainImages, Held,
         RealIds, Distinct, Applied, UsedChain, ChunksFit;
    if SoundlyOpens(s.disk, s.published, s.pageSize) {
      var x, leaked :| OpensSound(s.disk, s.published, s.pageSize, x, leaked);
      SoundWalk(s, x, leaked);
      RewrittenChain(s);
      ChainsWritten(s);
      ChainIsDetermined(s.disk, HeadOf(UsedChain(s.writer, s.pageSize)), x.writer.chain, x.writer.free,
                        UsedChain(s.writer, s.pageSize), Payload(s.writer));
    }
  }

  /** Between the gate and the header write, opening is sound exactly while the disk is still whole. */
  lemma ChainingRecovers(s: System)
    requires Inv(s) && ProgressOk(s) && s.phase.Chaining?
    ensures PagesNeeded(s.writer, s.pageSize) <= |s.writer.chain|
    ensures StillWhole(s) ==> Recovers(s.disk, s.published, s.pageSize)
    ensures !StillWhole(s) ==> !SoundlyOpens(s.disk, s.published, s.pageSize)
  {
    hide Inv, SavedOk, Recovers, SoundlyOpens, ChainOnDisk, Chunks, HeaderPage, HeaderOf, FromBytes, Payload, ChainImages,
         Held, RealIds, Distinct, Applied, UsedChain, ChunksFit, Persisted;
    MidChainFacts(s);
    var k := WrittenCount(s);
    if StillWhole(s) {
      WholePersisted(s);
      SavedRecovers(s);
    } else if k < |OldChunks(s)| && k < |NewChunks(s)| {
      MixedNotSound(s);
    } else if k < |NewChunks(s)| {
      LongerNotSound(s);
    } else {
      GateListsRoot(s);
      ImageCount(s);
      AllNotSound(s);
    }
  }

  lemma ImageCount(s: System)
    requires s.pageSize >= MIN_PAGE_SIZE && PagesNeeded(s.writer, s.pageSize) <= |s.writer.chain|
    ensures |ChainWrites(s.writer, s.pageSize)| == |NewChunks(s)| == PagesNeeded(s.writer, s.pageSize)
  {
    hide Chunks;
  }

  lemma SavedRecovers(s: System)
    requires Inv(s) && ProgressOk(s) && s.phase.Chaining? && Persisted(s.disk, s.published.id, s.phase.saved, s.pageSize)
    ensures Recovers(s.disk, s.published, s.pageSize)
  {
    hide Recovers, Good, Accounted, Persisted, HeaderNames, Folded, MapOf, Succeeds, OldPagesKept, Applied, ChainWrites,
         PagesNeeded, PartlyChained, DrawsFirst, PagesOf, ChainGrown;
    PersistedRecovers(s.disk, s.published, s.phase.saved, s.leaked, s.pageSize);
  }

  lemma GateListsRoot(s: System)
    requires Inv(s) && s.phase.Chaining?
    ensures NewChunks(s) != []
  {
    hide Good, Accounted, Persisted, HeaderNames, Folded, MapOf, Succeeds, Applied, ChainWrites, PagesOf, Chunks;
    var w := s.writer;
    assert s.published.id in w.free || s.published.id in w.pending;
    assert Payload(w) != [];
  }

  /* ---- Any moment ---- */

  /**
   Stopping the process at any moment of any run leaves a disk that opens to a consistent store with the tree the header
   names, unless a commit is past its gate and has rewritten the header's chain into something else; then no
   way of opening it is sound.
   */
  lemma CrashRecovery(d: Disk, pageSize: nat, trace: seq<System>, steps: seq<Step>, k: nat)
    requires Run(d, pageSize, trace, steps) && k < |trace|
    ensures var s := trace[k];
            && s.pageSize == pageSize
            && (s.phase.Chaining? ==> PagesNeeded(s.writer, pageSize) <= |s.writer.chain|)
            && (Recovers(s.disk, HeaderTree(s), pageSize) <==> (s.phase.Chaining? ==> StillWhole(s)))
            && (SoundlyOpens(s.disk, HeaderTree(s), pageSize) <==> (s.phase.Chaining? ==> StillWhole(s)))
  {
    hide Run, Inv, ProgressOk, Recovers, SoundlyOpens, StillWhole, PagesNeeded;
    RunInv(d, pageSize, trace, steps, k);
    RunProgress(d, pageSize, trace, steps, k);
    var s := trace[k];
    if s.phase.Chaining? {
      ChainingRecovers(s);
    } else {
      OtherRecovers(s);
    }
    if Recovers(s.disk, HeaderTree(s), pageSize) {
      RecoversSoundly(s.disk, HeaderTree(s), pageSize);
    }
  }

  lemma OtherRecovers(s: System)
    requires Inv(s) && ProgressOk(s) && !s.phase.Chaining?
    ensures Recovers(s.disk, HeaderTree(s), s.pageSize)
  {
    hide Recovers, Good, Accounted, AccountedInFlight, Persisted, HeaderNames, Folded, MapOf, Succeeds, OldPagesKept,
         RootStored, WellFormed, Flush, Written, DrawsFirst, PagesOf;
    match s.phase
    case Idle => PersistedRecovers(s.disk, s.published, s.writer, s.leaked, s.pageSize);
    case Flushing(_, _, _, _, saved, _) => PersistedRecovers(s.disk, s.published, saved, s.leaked, s.pageSize);
    case Publishing(_, after, _) => PersistedRecovers(s.disk, after, s.writer, s.leaked, s.pageSize);
    case _ =>
  }

  /** On disk: the list the put started from was empty exactly when the header names no chain. */
  lemma NoOldChain(d: Disk, pageSize: nat, trace: seq<System>, steps: seq<Step>, k: nat)
    requires Run(d, pageSize, trace, steps) && k < |trace| && trace[k].phase.Chaining?
    ensures var s := trace[k];
            && s.pageSize == pageSize && HEADER_PAGE_ID in s.disk && FromBytes(s.disk[HEADER_PAGE_ID]).Decoded?
            && (OldChunks(s) == [] <==> HeadOnDisk(s.disk) == 0)
  {
    hide Run, Inv, ProgressOk, Chunks, Payload, HeaderPage, FromBytes, Held, ChainWrites, Applied, Distinct;
    RunInv(d, pageSize, trace, steps, k);
    RunProgress(d, pageSize, trace, steps, k);
    var s := trace[k];
    MidChainFacts(s);
    if OldChunks(s) != [] {
      assert s.phase.saved.chain[0] in s.writer.chain;
    }
  }

  /* ---- Crash points that lose the free list ---- */

  lemma {:induction false} LeadsProgress(s: System, steps: seq<Step>, s': System)
    requires Inv(s) && ProgressOk(s) && Leads(s, steps, s')
    ensures ProgressOk(s')
    decreases |steps|
  {
    hide Inv, ProgressOk, Enabled, StoreProtocol.After;
    if steps != [] {
      StepKeepsInv(s, steps[0]);
      ProgressStep(s, steps[0]);
      LeadsProgress(StoreProtocol.After(s, steps[0]), steps[1..], s');
    }
  }

  /** Every put into a store whose header names a chain passes a moment at which stopping loses consistency. */
  lemma PutPassesBadCrash(s: System, e: Entry) returns (steps: seq<Step>, s': System)
    requires Inv(s) && ProgressOk(s) && Enabled(s, Begin(e)) && Payload(s.writer) != []
    ensures Leads(s, steps, s') && s'.phase.Chaining? && s'.phase.todo == [] && s'.published == s.published
    ensures !SoundlyOpens(s'.disk, s.published, s.pageSize)
  {
    hide Inv, ProgressOk, Enabled, SoundlyOpens, Recovers, PutTree, Flush, Applied, ChainWrites, ChainGrown,
         PagesNeeded, Gate, Drawn, StoreProtocol.After, Leads, Payload, Chunks;
    var first, s3 := UpToGate(s, e);
    var rest;
    AtLeastMinimum(s);
    rest, s' := ChainAll(s3);
    steps := first + rest;
    LeadsOn(s, first, s3, rest, s');
    LeadsInv(s, steps, s');
    LeadsProgress(s, steps, s');
    ChainingRecovers(s');
    ImageCount(s');
  }

  lemma AtLeastMinimum(s: System)
    requires Inv(s)
    ensures PageSizeOk(s.pageSize)
  {
    hide Good, HeaderNames, Folded, MapOf;
  }

  lemma SecondPutRun(d: Disk, pageSize: nat) returns (trace: seq<System>, steps: seq<Step>)
    requires PageSizeOk(pageSize)
    ensures Run(d, pageSize, trace, steps)
    ensures var s := trace[|trace| - 1];
            s.phase.Chaining? && s.phase.todo == [] && !SoundlyOpens(s.disk, s.published, pageSize)
  {
    hide Inv, ProgressOk, Enabled, SoundlyOpens, PutDone, StoreProtocol.After, Leads;
    var s0 := Created(d, pageSize);
    CreatedInv(d, pageSize);
    CreatedProgress(d, pageSize);
    FirstPutEnabled(d, pageSize);
    var first, s1 := UninterruptedPut(s0, FIRST);
    LeadsInv(s0, first, s1);
    LeadsProgress(s0, first, s1);
    SecondPutEnabled(d, s1, pageSize);
    var more, s2 := PutPassesBadCrash(s1, FIRST);
    trace := RunOn(d, pageSize, [s0], [], first, s1);
    trace := RunOn(d, pageSize, trace, [] + first, more, s2);
    steps := [] + first + more;
  }

  /** From any fresh store: the second put reaches such a moment, with the root the header names on the free list. */
  lemma CrashLosesFreeList(d: Disk, pageSize: nat) returns (trace: seq<System>, steps: seq<Step>)
    requires PageSizeOk(pageSize)
    ensures Run(d, pageSize, trace, steps)
    ensures var s := trace[|trace| - 1];
            && s.phase.Chaining? && s.phase.todo == [] && HEADER_PAGE_ID in s.disk && FromBytes(s.disk[HEADER_PAGE_ID]).Decoded?
            && HeadOnDisk(s.disk) != 0 && RootListedFree(s.disk, s.published.id)
            && !SoundlyOpens(s.disk, s.published, pageSize)
  {
    hide Recovers, SoundlyOpens, RootListedFree, FromBytes, HeaderNames, Good, PagesNeeded, Chunks;
    trace, steps := SecondPutRun(d, pageSize);
    hide Follows, Created;
    CrashBeforeHeader(d, pageSize, trace, steps, |trace| - 1);
    CrashRecovery(d, pageSize, trace, steps, |trace| - 1);
    NoOldChain(d, pageSize, trace, steps, |trace| - 1);
  }

  lemma FirstPutEnabled(d: Disk, pageSize: nat)
    requires PageSizeOk(pageSize)
    ensures Enabled(Created(d, pageSize), Begin(FIRST))
  {
    hide Image, HeaderPage;
  }

  lemma SecondPutEnabled(d: Disk, s1: System, pageSize: nat)
    requires PageSizeOk(pageSize) && s1.phase.Idle? && s1.pageSize == pageSize
    requires (Snapshot(s1.disk, s1.published.id, s1.writer), s1.published)
          == PutDone(Snapshot(Created(d, pageSize).disk, INITIAL_ROOT_PAGE_ID, FreshWriter()), EMPTY_ROOT, FIRST, pageSize, true)
    ensures Enabled(s1, Begin(FIRST)) && Payload(s1.writer) != []
  {
    hide Image, HeaderPage, PutTree, ChainGrown, Gate, ChainWrites, PagesNeeded, HeaderOf, Applied, Flush, Chunks;
    FirstPut(pageSize);
    FirstGate(pageSize);
  }
}
