/**
 What a crash before the header write leaves behind. The header still names the old root, whose tree is intact
 (`StoreSafety.CommitIsAtomic`), but the free-list chain is rewritten in place before the header: once it is, a chain the
 header already named lists the very root the header names.
 */
module StoreCrash {
  import opened ByteStrings
  import opened PageFormat
  import opened SplitPoints
  import opened HeaderPages
  import opened TreeNodes
  import opened TreeInsert
  import opened TreeStock
  import opened TreeStorage
  import opened StoreSpec
  import opened StoreState
  import opened StorePut
  import opened StoreProtocol
  import opened StoreSafety

  function HeadOnDisk(d: Disk): PageId
    requires HEADER_PAGE_ID in d && FromBytes(d[HEADER_PAGE_ID]).Decoded?
  {
    FromBytes(d[HEADER_PAGE_ID]).header.freeListHead
  }

  /** The header names no chain, or the first chain page, which never changes while the store is open. */
  ghost predicate HeadNamed(d: Disk, w: Writer) {
    && HEADER_PAGE_ID in d && FromBytes(d[HEADER_PAGE_ID]).Decoded?
    && (HeadOnDisk(d) == 0 || (w.chain != [] && HeadOnDisk(d) == w.chain[0]))
  }

  lemma HeadElsewhere(d: Disk, w: Writer, id: PageId, bytes: Bytes)
    requires HeadNamed(d, w) && id != HEADER_PAGE_ID
    ensures HeadNamed(d[id := bytes], w)
  {
    hide FromBytes;
  }

  lemma LongerChain(d: Disk, w: Writer, w': Writer)
    requires HeadNamed(d, w) && w.chain <= w'.chain
    ensures HeadNamed(d, w')
  {
    hide FromBytes;
  }

  lemma NewHeaderNamesHead(d: Disk, after: Rooted, w: Writer, leaked: multiset<PageId>, pageSize: nat)
    requires PageSizeOk(pageSize) && Accounted(after, w, leaked) && w.next < U64_RANGE
    requires PagesNeeded(w, pageSize) <= |w.chain|
    ensures HeadNamed(d[HEADER_PAGE_ID := HeaderPage(HeaderOf(w, after.id, pageSize), pageSize)], w)
  {
    hide FromBytes, HeaderPage, Accounted, PagesNeeded;
    FieldsInRange(after, w, leaked, pageSize);
    HeaderDecodes(w, after.id, pageSize);
  }

  lemma ReopenedHead(d: Disk, root: Rooted, w: Writer, leaked: multiset<PageId>, pageSize: nat)
    requires PageSizeOk(pageSize) && Accounted(root, w, leaked) && w.next < U64_RANGE
    requires Persisted(d, root.id, w, pageSize)
    ensures HeadNamed(d, Reopened(Snapshot(d, root.id, w), pageSize).writer)
  {
    hide FromBytes, HeaderPage, Accounted, PagesNeeded, ChainOnDisk;
    FieldsInRange(root, w, leaked, pageSize);
    HeaderDecodes(w, root.id, pageSize);
  }

  lemma HeadStep(s: System, step: Step)
    requires Inv(s) && Enabled(s, step) && HeadNamed(s.disk, s.writer)
    ensures HeadNamed(StoreProtocol.After(s, step).disk, StoreProtocol.After(s, step).writer)
  {
    hide Good, Succeeds, HeaderNames, Accounted, AccountedInFlight, Persisted, OldPagesKept, Folded, MapOf, WellFormed,
         RootStored, PagesOf, Written, Flush, Applied, ChainWrites, PagesNeeded, Image, HeaderPage, HeaderOf, HeadNamed,
         PutTree, Reopened, RoomFor, GrownChain;
    match step
    case Begin(e) => LongerChain(s.disk, s.writer, StoreProtocol.After(s, step).writer);
    case WriteImage =>
      var p := s.phase;
      var w := p.work.writes[p.done];
      WritesApart(s.published, s.writer, p.work.writes, s.leaked);
      NextImage(p.base, p.work.writes, p.done, s.pageSize);
      HeadElsewhere(s.disk, s.writer, w.id, Image(w.node, w.id, s.pageSize));
    case PassGate =>
      GateLengthens(s.published, s.phase.after, s.writer, s.phase.work, s.readers == map[], s.pageSize, s.leaked);
      LongerChain(s.disk, s.writer, StoreProtocol.After(s, step).writer);
    case WriteChain =>
      OldPagesApart(s.published, s.writer, s.leaked, s.phase.after, s.phase.promoted);
      ChainApart(s.phase.after, s.writer, s.leaked);
      HeadElsewhere(s.disk, s.writer, s.phase.todo[0].id, s.phase.todo[0].bytes);
    case WriteHeader => NewHeaderNamesHead(s.disk, s.phase.after, s.writer, s.leaked, s.pageSize);
    case Reopen => ReopenedHead(s.disk, s.published, s.writer, s.leaked, s.pageSize);
    case _ =>
  }

  lemma GateLengthens(root: Rooted, after: Rooted, w: Writer, work: Work, quiescent: bool, pageSize: nat,
                      leaked: multiset<PageId>)
    requires pageSize >= MIN_PAGE_SIZE
    requires AccountedInFlight(root, w, Written(work.writes), leaked)
    requires PagesOf(after) + multiset(work.freed) == PagesOf(root) + Written(work.writes)
    ensures w.chain <= ChainGrown(Gate(w, work.freed, quiescent), pageSize).chain
  {
    hide AccountedInFlight, Accounted, PagesOf, Written, GrownChain, PagesNeeded;
    var g := Gate(w, work.freed, quiescent);
    GateAccounts(root, after, w, work.freed, Written(work.writes), quiescent, leaked);
    GrownAccounts(after, g, PagesNeeded(g, pageSize), leaked);
  }

  lemma {:induction false} RunHeadNamed(d: Disk, pageSize: nat, trace: seq<System>, steps: seq<Step>, k: nat)
    requires Run(d, pageSize, trace, steps) && k < |trace|
    ensures HeadNamed(trace[k].disk, trace[k].writer)
    decreases k
  {
    hide Inv, Enabled, HeadNamed, StoreProtocol.After;
    if k == 0 {
      FreshHead(d, pageSize);
    } else {
      RunHeadNamed(d, pageSize, trace, steps, k - 1);
      RunInv(d, pageSize, trace, steps, k - 1);
      assert Follows(trace[k - 1], steps[k - 1], trace[k - 1 + 1]);
      HeadStep(trace[k - 1], steps[k - 1]);
    }
  }

  lemma FreshHead(d: Disk, pageSize: nat)
    requires PageSizeOk(pageSize)
    ensures HeadNamed(Created(d, pageSize).disk, Created(d, pageSize).writer)
  {
    hide Image, HeaderPage, FromBytes;
    HeaderRoundTrip(NewHeader(pageSize, INITIAL_ROOT_PAGE_ID, INITIAL_ROOT_PAGE_ID + 1), pageSize);
  }

  /** Opening this disk would find, on the free list, the root page the header names. */
  ghost predicate RootListedFree(d: Disk, root: PageId)
    requires HEADER_PAGE_ID in d && FromBytes(d[HEADER_PAGE_ID]).Decoded?
  {
    exists ids, entries :: ChainOnDisk(d, HeadOnDisk(d), ids, entries) && root in entries
  }

  lemma ChainsWritten(s: System)
    requires Inv(s) && s.phase.Chaining? && s.phase.todo == []
    ensures PagesNeeded(s.writer, s.pageSize) <= |s.writer.chain|
    ensures ChainOnDisk(s.disk, HeadOf(UsedChain(s.writer, s.pageSize)), UsedChain(s.writer, s.pageSize), Payload(s.writer))
    ensures s.published.id in Payload(s.writer)
  {
    hide Good, Succeeds, HeaderNames, Accounted, Folded, MapOf, WellFormed, RootStored, PagesOf, ChainWrites,
         PagesNeeded,
         HeaderPage, HeaderOf, ChainOnDisk, UsedChain;
    var p := s.phase;
    assert Applied(s.disk, p.todo) == s.disk;
    PersistWorks(p.gated, p.after, s.writer, s.leaked, s.pageSize);
    ChainApart(p.after, s.writer, s.leaked);
    var page := HeaderPage(HeaderOf(s.writer, p.after.id, s.pageSize), s.pageSize);
    var used := UsedChain(s.writer, s.pageSize);
    UsedIsChain(s.writer, s.pageSize);
    ChainFrame(s.disk[HEADER_PAGE_ID := page], s.disk, HeadOf(used), used, Payload(s.writer));
  }

  lemma UsedIsChain(w: Writer, pageSize: nat)
    requires pageSize >= MIN_PAGE_SIZE && PagesNeeded(w, pageSize) <= |w.chain|
    ensures forall id :: id in UsedChain(w, pageSize) ==> id in w.chain
    ensures Payload(w) != [] ==> UsedChain(w, pageSize) != [] && UsedChain(w, pageSize)[0] == w.chain[0]
  {
    hide Chunks;
  }

  /**
   With the chain written and the header not yet, the header's tree is intact but its chain frees its own root exactly
   when the header names a chain at all. `StoreRecovery.CrashRecovery` covers every other moment.
   */
  lemma CrashBeforeHeader(d: Disk, pageSize: nat, trace: seq<System>, steps: seq<Step>, k: nat)
    requires Run(d, pageSize, trace, steps) && k < |trace|
    requires trace[k].phase.Chaining? && trace[k].phase.todo == []
    ensures var s := trace[k];
            && HeaderNames(s.disk, s.published.id, pageSize) && Good(s.published, s.disk, pageSize)
            && (RootListedFree(s.disk, s.published.id) <==> HeadOnDisk(s.disk) != 0)
  {
    hide Inv, Good, ChainOnDisk, FromBytes, UsedChain, PagesNeeded, Payload, RootListedFree;
    RunInv(d, pageSize, trace, steps, k);
    RunHeadNamed(d, pageSize, trace, steps, k);
    var s := trace[k];
    PublishedFacts(s);
    ChainsWritten(s);
    UsedIsChain(s.writer, pageSize);
    if HeadOnDisk(s.disk) == 0 {
      NoChain(s.disk, s.published.id);
    } else {
      assert HeadOnDisk(s.disk) == HeadOf(UsedChain(s.writer, pageSize));
      Listed(s.disk, s.published.id, UsedChain(s.writer, pageSize), Payload(s.writer));
    }
  }

  lemma NoChain(d: Disk, root: PageId)
    requires HEADER_PAGE_ID in d && FromBytes(d[HEADER_PAGE_ID]).Decoded? && HeadOnDisk(d) == 0
    ensures !RootListedFree(d, root)
  {
    hide FromBytes;
  }

  lemma Listed(d: Disk, root: PageId, ids: seq<PageId>, entries: seq<PageId>)
    requires HEADER_PAGE_ID in d && FromBytes(d[HEADER_PAGE_ID]).Decoded?
    requires ChainOnDisk(d, HeadOnDisk(d), ids, entries) && root in entries
    ensures RootListedFree(d, root)
  {
  }
}
