/**
 The store's commit protocol with readers interleaved: every page write, the gate, the header write and
 the publication of the root is a step of its own, and readers enter, load the root and leave in between.
 The writer lock makes the writer's steps a single sequence.
 */
module StoreProtocol {
  import opened ByteStrings
  import opened PageFormat
  import opened SplitPoints
  import opened HeaderPages
  import opened TreeNodes
  import opened TreeInsert
  import opened TreeOrder
  import opened TreeStock
  import opened TreeStorage
  import opened StoreSpec
  import opened StoreState
  import opened StorePut

  type Reader = nat

  /**
   Where the writer is in a put. `base` and `saved` are the disk and the lists when the put began, which the header
   describes until it is rewritten; `gated` is the disk at the gate.
   */
  datatype Phase =
    | Idle
    | Flushing(entry: Entry, after: Rooted, work: Work, base: Disk, saved: Writer, done: nat)
    | Chaining(entry: Entry, after: Rooted, work: Work, gated: Disk, saved: Writer, todo: seq<DiskWrite>, promoted: bool)
    | Publishing(entry: Entry, after: Rooted, promoted: bool)

  /**
   `published` is the root the atomic holds, with the tree it stands for; `readers` maps each active reader
   to the roots it has loaded; `puts` records the published puts and `leaked` what reopenings dropped.
   */
  datatype System = System(
    pageSize: nat,
    disk: Disk,
    published: Rooted,
    writer: Writer,
    phase: Phase,
    readers: map<Reader, set<Rooted>>,
    puts: seq<Entry>,
    leaked: multiset<PageId>)

  datatype Step =
    | Enter(r: Reader)
    | Load(r: Reader)
    | Exit(r: Reader)
    | Begin(e: Entry)
    | WriteImage
    | PassGate
    | WriteChain
    | WriteHeader
    | Publish
    | Reopen

  function Created(d: Disk, pageSize: nat): System
    requires pageSize >= MIN_PAGE_SIZE
  {
    var s := Bootstrapped(d, pageSize);
    System(pageSize, s.disk, EMPTY_ROOT, s.writer, Idle, map[], [], multiset{})
  }

  ghost predicate Enabled(s: System, step: Step) {
    s.pageSize >= MIN_PAGE_SIZE &&
    match step
    case Enter(r) => r !in s.readers
    case Load(r) => r in s.readers
    case Exit(r) => r in s.readers
    case Begin(e) =>
      s.phase.Idle? && WithinLimits(e, s.pageSize) && RoomFor(s.writer, s.published.height)
      && Shaped(s.published.tree, s.published.height)
    case WriteImage => s.phase.Flushing? && s.phase.done < |s.phase.work.writes|
    case PassGate => s.phase.Flushing? && s.phase.done == |s.phase.work.writes|
    case WriteChain => s.phase.Chaining? && s.phase.todo != []
    case WriteHeader =>
      s.phase.Chaining? && s.phase.todo == [] && PagesNeeded(s.writer, s.pageSize) <= |s.writer.chain|
    case Publish => s.phase.Publishing?
    case Reopen =>
      s.phase.Idle? && s.readers == map[]
      && PagesNeeded(s.writer, s.pageSize) <= |s.writer.chain|
  }

  function Begun(s: System, e: Entry): System
    requires Shaped(s.published.tree, s.published.height)
  {
    var (after, work) := PutTree(s.published, e, s.pageSize, Fresh(s.writer));
    s.(writer := Drawn(s.writer, work), phase := Flushing(e, after, work, s.disk, s.writer, 0))
  }

  /** The gate reads the reader count once; the chain is then extended in memory. */
  function Gated(s: System): System
    requires s.phase.Flushing? && s.pageSize >= MIN_PAGE_SIZE
  {
    var quiescent := s.readers == map[];
    var w := ChainGrown(Gate(s.writer, s.phase.work.freed, quiescent), s.pageSize);
    s.(writer := w,
       phase := Chaining(s.phase.entry, s.phase.after, s.phase.work, s.disk, s.phase.saved, ChainWrites(w, s.pageSize),
                         quiescent))
  }

  ghost function After(s: System, step: Step): System
    requires Enabled(s, step)
  {
    match step
    case Enter(r) => s.(readers := s.readers[r := {}])
    case Load(r) => s.(readers := s.readers[r := s.readers[r] + {s.published}])
    case Exit(r) => s.(readers := s.readers - {r})
    case Begin(e) => Begun(s, e)
    case WriteImage =>
      var w := s.phase.work.writes[s.phase.done];
      s.(disk := s.disk[w.id := Image(w.node, w.id, s.pageSize)], phase := s.phase.(done := s.phase.done + 1))
    case PassGate => Gated(s)
    case WriteChain =>
      var w := s.phase.todo[0];
      s.(disk := s.disk[w.id := w.bytes], phase := s.phase.(todo := s.phase.todo[1..]))
    case WriteHeader =>
      var h := HeaderOf(s.writer, s.phase.after.id, s.pageSize);
      s.(disk := s.disk[HEADER_PAGE_ID := HeaderPage(h, s.pageSize)],
         phase := Publishing(s.phase.entry, s.phase.after, s.phase.promoted))
    case Publish => s.(published := s.phase.after, puts := s.puts + [s.phase.entry], phase := Idle)
    case Reopen =>
      s.(writer := Reopened(Snapshot(s.disk, s.published.id, s.writer), s.pageSize).writer,
         leaked := s.leaked + multiset(s.writer.chain[PagesNeeded(s.writer, s.pageSize)..]))
  }

  /** Between a gate that promoted and the publication of the new root. */
  predicate InWindow(s: System) {
    (s.phase.Chaining? || s.phase.Publishing?) && s.phase.promoted
  }

  /* ---- The invariant ---- */

  ghost predicate Good(root: Rooted, d: Disk, pageSize: nat) {
    WellFormed(root.tree, root.height, pageSize) && RootStored(d, root, pageSize)
  }

  function Folded(es: seq<Entry>): map<Key, Value> {
    MapOf(es)
  }

  ghost predicate HeaderNames(d: Disk, id: PageId, pageSize: nat) {
    && HEADER_PAGE_ID in d && FromBytes(d[HEADER_PAGE_ID]).Decoded?
    && FromBytes(d[HEADER_PAGE_ID]).header.rootId == id && FromBytes(d[HEADER_PAGE_ID]).header.pageSize == pageSize
  }

  /** The pages of the published tree, while a put has passed the gate. */
  ghost predicate OldPagesKept(before: Rooted, w: Writer, after: Rooted, promoted: bool) {
    && (forall id :: id in PagesOf(before) ==> id in PagesOf(after) || id in w.pending || (promoted && id in w.free))
    && (promoted ==> w.free != [] && w.free[|w.free| - 1] == before.id)
    && (before.id in w.free || before.id in w.pending)
  }

  ghost predicate Succeeds(before: Rooted, e: Entry, after: Rooted) {
    MapOf(Entries(after.tree)) == MapOf(Entries(before.tree))[e.key := e.value]
  }

  ghost predicate IdleOk(s: System)
    requires s.pageSize >= MIN_PAGE_SIZE
  {
    Accounted(s.published, s.writer, s.leaked) && Persisted(s.disk, s.published.id, s.writer, s.pageSize)
  }

  ghost predicate FlushingOk(s: System)
    requires s.phase.Flushing?
  {
    var p := s.phase;
    && p.done <= |p.work.writes| && s.disk == Flush(p.base, p.work.writes[..p.done], s.pageSize)
    && WellFormed(p.after.tree, p.after.height, s.pageSize) && Succeeds(s.published, p.entry, p.after)
    && RootStored(Flush(p.base, p.work.writes, s.pageSize), p.after, s.pageSize)
    && AccountedInFlight(s.published, s.writer, Written(p.work.writes), s.leaked)
    && PagesOf(p.after) + multiset(p.work.freed) == PagesOf(s.published) + Written(p.work.writes)
    && p.work.freed != [] && p.work.freed[|p.work.freed| - 1] == s.published.id
    && 2 * s.writer.next < U64_RANGE
  }

  ghost predicate ChainingOk(s: System)
    requires s.phase.Chaining? && s.pageSize >= MIN_PAGE_SIZE
  {
    var p := s.phase;
    && Good(p.after, s.disk, s.pageSize) && Succeeds(s.published, p.entry, p.after)
    && Accounted(p.after, s.writer, s.leaked) && OldPagesKept(s.published, s.writer, p.after, p.promoted)
    && PagesNeeded(s.writer, s.pageSize) <= |s.writer.chain|
    && Applied(s.disk, p.todo) == Applied(p.gated, ChainWrites(s.writer, s.pageSize))
    && forall i :: 0 <= i < |p.todo| ==> p.todo[i].id in s.writer.chain
  }

  ghost predicate PublishingOk(s: System)
    requires s.phase.Publishing? && s.pageSize >= MIN_PAGE_SIZE
  {
    var p := s.phase;
    && Good(p.after, s.disk, s.pageSize) && Succeeds(s.published, p.entry, p.after)
    && Accounted(p.after, s.writer, s.leaked) && OldPagesKept(s.published, s.writer, p.after, p.promoted)
    && Persisted(s.disk, p.after.id, s.writer, s.pageSize)
  }

  /** The tree the header page names: the new one from the header write on. */
  ghost function HeaderTree(s: System): Rooted {
    if s.phase.Publishing? then s.phase.after else s.published
  }

  ghost predicate SharedOk(s: System) {
    && PageSizeOk(s.pageSize) && s.writer.next < U64_RANGE
    && Good(s.published, s.disk, s.pageSize)
    && MapOf(Entries(s.published.tree)) == Folded(s.puts)
    && HeaderNames(s.disk, HeaderTree(s).id, s.pageSize)
  }

  ghost predicate Inv(s: System) {
    && SharedOk(s)
    && match s.phase
       case Idle => IdleOk(s)
       case Flushing(_, _, _, _, _, _) => FlushingOk(s)
       case Chaining(_, _, _, _, _, _, _) => ChainingOk(s)
       case Publishing(_, _, _) => PublishingOk(s)
  }

  /* ---- Every step keeps the invariant ---- */

  lemma FreesRootLast(root: Rooted, e: Entry, pageSize: nat, w: Work)
    requires Shaped(root.tree, root.height)
    ensures var freed := PutTree(root, e, pageSize, w).1.freed;
            freed != [] && freed[|freed| - 1] == root.id
  {
    hide InsertInto;
  }

  /** What beginning a put establishes, fact by fact. */
  lemma PutBegins(d: Disk, root: Rooted, w: Writer, e: Entry, pageSize: nat, leaked: multiset<PageId>)
    requires PageSizeOk(pageSize) && Good(root, d, pageSize) && Accounted(root, w, leaked)
    requires WithinLimits(e, pageSize) && RoomFor(w, root.height)
    ensures var (after, work) := PutTree(root, e, pageSize, Fresh(w));
            && WellFormed(after.tree, after.height, pageSize) && Succeeds(root, e, after)
            && RootStored(Flush(d, work.writes, pageSize), after, pageSize) && Flush(d, work.writes[..0], pageSize) == d
            && AccountedInFlight(root, Drawn(w, work), Written(work.writes), leaked)
            && PagesOf(after) + multiset(work.freed) == PagesOf(root) + Written(work.writes)
            && work.freed != [] && work.freed[|work.freed| - 1] == root.id
            && 2 * work.next < U64_RANGE
  {
    hide PutTree, PagesOf, WellFormed, RootStored, Accounted, AccountedInFlight, MapOf, WithinLimits, Written;
    ShapedIfGood(d, root, pageSize);
    PutRefinesMap(root, e, pageSize, Fresh(w));
    BeginPut(root, w, e, pageSize, leaked);
    FlushedTree(d, root, w, e, pageSize, leaked);
    PutNext(root, e, pageSize, Fresh(w));
    FreesRootLast(root, e, pageSize, Fresh(w));
  }

  lemma ShapedIfGood(d: Disk, root: Rooted, pageSize: nat)
    requires Good(root, d, pageSize)
    ensures Shaped(root.tree, root.height)
  {
  }

  lemma BeginStep(s: System, e: Entry)
    requires Inv(s) && Enabled(s, Begin(e))
    ensures Inv(After(s, Begin(e)))
  {
    hide Good, Succeeds, HeaderNames, Accounted, AccountedInFlight, Persisted, OldPagesKept, Folded, MapOf,
         WellFormed, RootStored, PutTree, PagesOf, Written, WithinLimits, Flush, RoomFor;
    PutBegins(s.disk, s.published, s.writer, e, s.pageSize, s.leaked);
  }

  /** A page outside a tree can be overwritten without touching the tree. */
  lemma OverwriteElsewhere(root: Rooted, d: Disk, id: PageId, bytes: Bytes, pageSize: nat)
    requires Good(root, d, pageSize) && id !in PagesOf(root)
    ensures Good(root, d[id := bytes], pageSize)
  {
    hide Stored, WellFormed;
    StoredFrame(d, d[id := bytes], root.id, root.tree, root.height, pageSize);
  }

  lemma HeaderElsewhere(d: Disk, root: PageId, pageSize: nat, id: PageId, bytes: Bytes)
    requires HeaderNames(d, root, pageSize) && id != HEADER_PAGE_ID
    ensures HeaderNames(d[id := bytes], root, pageSize)
  {
  }

  lemma WriteImageStep(s: System)
    requires Inv(s) && Enabled(s, WriteImage)
    ensures Inv(After(s, WriteImage))
  {
    hide Good, Succeeds, HeaderNames, Accounted, AccountedInFlight, Persisted, OldPagesKept, Folded, MapOf,
         WellFormed, RootStored, PagesOf, Written, Flush, Image;
    var p := s.phase;
    var w := p.work.writes[p.done];
    WritesApart(s.published, s.writer, p.work.writes, s.leaked);
    NextImage(p.base, p.work.writes, p.done, s.pageSize);
    OverwriteElsewhere(s.published, s.disk, w.id, Image(w.node, w.id, s.pageSize), s.pageSize);
    HeaderElsewhere(s.disk, s.published.id, s.pageSize, w.id, Image(w.node, w.id, s.pageSize));
  }

  lemma GateStep(s: System)
    requires Inv(s) && Enabled(s, PassGate)
    ensures Inv(After(s, PassGate))
  {
    hide Succeeds, HeaderNames, Accounted, AccountedInFlight, OldPagesKept, MapOf, WellFormed, RootStored,
         PagesOf, Flush, Written, PagesNeeded, ChainWrites, Applied;
    var p := s.phase;
    assert p.work.writes[..p.done] == p.work.writes;
    var quiescent := s.readers == map[];
    var g := Gate(s.writer, p.work.freed, quiescent);
    GateAccounts(s.published, p.after, s.writer, p.work.freed, Written(p.work.writes), quiescent, s.leaked);
    ChainRoom(p.after, g, s.leaked, s.pageSize);
    GrownEnough(g, s.pageSize);
    GateKeepsOldPages(s.published, s.writer, p.after, p.work.freed, Written(p.work.writes), quiescent, s.pageSize);
  }

  lemma GateKeepsOldPages(root: Rooted, w: Writer, after: Rooted, freed: seq<PageId>, written: multiset<PageId>,
                          quiescent: bool, pageSize: nat)
    requires pageSize >= MIN_PAGE_SIZE && PagesOf(after) + multiset(freed) == PagesOf(root) + written
    requires freed != [] && freed[|freed| - 1] == root.id
    ensures OldPagesKept(root, ChainGrown(Gate(w, freed, quiescent), pageSize), after, quiescent)
  {
    hide PagesOf, Chunks;
    forall id | id in PagesOf(root)
      ensures id in PagesOf(after) || id in freed
    {
      assert id in PagesOf(after) + multiset(freed);
    }
    assert forall id :: id in freed ==> id in w.pending + freed;
    assert forall id :: id in freed ==> id in w.free + (w.pending + freed);
  }

  /** Until the new root is published, neither chain pages nor the header belong to the old tree. */
  lemma OldPagesApart(before: Rooted, w: Writer, leaked: multiset<PageId>, after: Rooted, promoted: bool)
    requires Accounted(after, w, leaked) && OldPagesKept(before, w, after, promoted)
    ensures forall id :: id in PagesOf(before) ==> id !in w.chain && id != HEADER_PAGE_ID
    ensures forall id :: id in PagesOf(after) ==> id !in w.chain && id != HEADER_PAGE_ID
  {
    hide PagesOf, Accounted;
    forall id | id in PagesOf(before) || id in PagesOf(after)
      ensures id !in w.chain && id != HEADER_PAGE_ID
    {
      Parts(after, w, leaked, id);
    }
  }

  lemma WriteChainStep(s: System)
    requires Inv(s) && Enabled(s, WriteChain)
    ensures Inv(After(s, WriteChain))
  {
    hide Good, Succeeds, HeaderNames, Accounted, AccountedInFlight, Persisted, OldPagesKept, Folded, MapOf,
         WellFormed, RootStored, PagesOf, ChainWrites, PagesNeeded;
    var p := s.phase;
    var w := p.todo[0];
    OldPagesApart(s.published, s.writer, s.leaked, p.after, p.promoted);
    OverwriteElsewhere(s.published, s.disk, w.id, w.bytes, s.pageSize);
    OverwriteElsewhere(p.after, s.disk, w.id, w.bytes, s.pageSize);
    ChainApart(p.after, s.writer, s.leaked);
    HeaderElsewhere(s.disk, s.published.id, s.pageSize, w.id, w.bytes);
    assert Applied(s.disk[w.id := w.bytes], p.todo[1..]) == Applied(s.disk, p.todo);
  }

  /** Writing the header makes the new root and the new lists the recoverable ones. */
  lemma HeaderWritten(d: Disk, after: Rooted, w: Writer, leaked: multiset<PageId>, pageSize: nat)
    requires PageSizeOk(pageSize) && Accounted(after, w, leaked) && w.next < U64_RANGE
    requires PagesNeeded(w, pageSize) <= |w.chain|
    ensures var page := HeaderPage(HeaderOf(w, after.id, pageSize), pageSize);
            var d' := Applied(d, ChainWrites(w, pageSize))[HEADER_PAGE_ID := page];
            Persisted(d', after.id, w, pageSize) && HeaderNames(d', after.id, pageSize)
  {
    hide PagesOf, Accounted, FromBytes, Persisted, ChainWrites, PagesNeeded, HeaderPage;
    PersistWorks(d, after, w, leaked, pageSize);
    FieldsInRange(after, w, leaked, pageSize);
    HeaderDecodes(w, after.id, pageSize);
  }

  lemma WriteHeaderStep(s: System)
    requires Inv(s) && Enabled(s, WriteHeader)
    ensures Inv(After(s, WriteHeader))
  {
    hide Good, Succeeds, HeaderNames, Accounted, AccountedInFlight, Persisted, OldPagesKept, Folded, MapOf,
         WellFormed, RootStored, PagesOf, ChainWrites, PagesNeeded, HeaderPage, HeaderOf,
         Entries, Flush, Written, RoomFor;
    var p := s.phase;
    var page := HeaderPage(HeaderOf(s.writer, p.after.id, s.pageSize), s.pageSize);
    OldPagesApart(s.published, s.writer, s.leaked, p.after, p.promoted);
    OverwriteElsewhere(s.published, s.disk, HEADER_PAGE_ID, page, s.pageSize);
    OverwriteElsewhere(p.after, s.disk, HEADER_PAGE_ID, page, s.pageSize);
    assert Applied(s.disk, p.todo) == s.disk;
    HeaderWritten(p.gated, p.after, s.writer, s.leaked, s.pageSize);
  }

  lemma FoldedNext(puts: seq<Entry>, before: Rooted, e: Entry, after: Rooted)
    requires MapOf(Entries(before.tree)) == Folded(puts) && Succeeds(before, e, after)
    ensures MapOf(Entries(after.tree)) == Folded(puts + [e])
  {
    assert (puts + [e])[..|puts|] == puts;
  }

  lemma PublishStep(s: System)
    requires Inv(s) && Enabled(s, Publish)
    ensures Inv(After(s, Publish))
  {
    hide Good, Succeeds, HeaderNames, Accounted, AccountedInFlight, Persisted, OldPagesKept, Folded, MapOf, WellFormed,
         RootStored, Entries, PagesOf, PagesNeeded, Applied, ChainWrites, Flush, Written;
    FoldedNext(s.puts, s.published, s.phase.entry, s.phase.after);
  }

  lemma ReopenedLists(d: Disk, root: Rooted, w: Writer, leaked: multiset<PageId>, pageSize: nat)
    requires PageSizeOk(pageSize) && Good(root, d, pageSize) && w.next < U64_RANGE
    requires Accounted(root, w, leaked) && Persisted(d, root.id, w, pageSize)
    ensures var w' := Reopened(Snapshot(d, root.id, w), pageSize).writer;
            && Accounted(root, w', leaked + multiset(w.chain[PagesNeeded(w, pageSize)..]))
            && Persisted(d, root.id, w', pageSize) && w'.next == w.next
  {
    hide Accounted, ChainOnDisk, WellFormed, RootStored, PagesNeeded, UsedChain, HeaderPage, FromBytes;
    ReopenRecovers(Snapshot(d, root.id, w), root, leaked, pageSize);
  }

  lemma ReopenStep(s: System)
    requires Inv(s) && Enabled(s, Reopen)
    ensures Inv(After(s, Reopen))
  {
    hide Good, Succeeds, HeaderNames, Accounted, AccountedInFlight, Persisted, OldPagesKept, Folded, MapOf,
         WellFormed, RootStored, PagesNeeded, Reopened,
         Entries, PagesOf, Applied, ChainWrites, Flush, Written, RoomFor;
    ReopenedLists(s.disk, s.published, s.writer, s.leaked, s.pageSize);
  }

  lemma StepKeepsInv(s: System, step: Step)
    requires Inv(s) && Enabled(s, step)
    ensures Inv(After(s, step))
  {
    hide Inv;
    match step
    case Enter(_) => QuietStep(s, After(s, step));
    case Load(_) => QuietStep(s, After(s, step));
    case Exit(_) => QuietStep(s, After(s, step));
    case Begin(e) => BeginStep(s, e);
    case WriteImage => WriteImageStep(s);
    case PassGate => GateStep(s);
    case WriteChain => WriteChainStep(s);
    case WriteHeader => WriteHeaderStep(s);
    case Publish => PublishStep(s);
    case Reopen => ReopenStep(s);
  }

  /** Readers change nothing the writer relies on. */
  lemma QuietStep(s: System, s': System)
    requires Inv(s) && s' == s.(readers := s'.readers)
    ensures Inv(s')
  {
    hide Good, Succeeds, HeaderNames, Accounted, AccountedInFlight, Persisted, OldPagesKept, Folded, MapOf,
         WellFormed, RootStored, Written, Flush, Applied, ChainWrites, PagesOf, PagesNeeded;
  }
}
