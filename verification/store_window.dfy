/**
 When a loaded root stays readable, exactly: between a promoting gate and the publication of the new root, the root a
 reader would load is the very page the next put overwrites first; at any other time it is kept until the reader leaves.
 */
module StoreWindow {
  import opened ByteStrings
  import opened PageFormat
  import opened SplitPoints
  import opened KeySearch
  import opened HeaderPages
  import opened TreeNodes
  import opened TreeInsert
  import opened TreeStock
  import opened TreeStorage
  import opened StoreSpec
  import opened StoreState
  import opened StorePut
  import opened StoreProtocol
  import opened StoreSafety
  import opened StoreRuns

  /* ---- The first page a put writes ---- */

  /** A put of the smallest key puts it first in its leaf. */
  predicate LeafOf(node: Node, e: Entry) {
    node.Leaf? && node.entries != [] && (e.key == [] ==> node.entries[0] == e)
  }

  /** Nothing was allocated yet, or the first allocation took the next id and wrote a leaf there. */
  ghost predicate FirstWrite(w: Work, w': Work, e: Entry) {
    || (w'.writes == w.writes && w'.free == w.free && w'.next == w.next)
    || (w.writes < w'.writes && var first := w'.writes[|w.writes|]; first.id == NextId(w) && LeafOf(first.node, e))
  }

  ghost predicate StartsWithLeaf(r: InsertResult, e: Entry) {
    match r
    case Single(n) => LeafOf(n, e)
    case Split(left, _, _) => LeafOf(left, e)
  }

  lemma LeafResult(es: seq<Entry>, e: Entry, pageSize: nat)
    requires MIN_PAGE_SIZE <= pageSize && LeafFits(es, pageSize) && WithinLimits(e, pageSize)
    ensures StartsWithLeaf(InsertLeaf(es, e, pageSize), e)
  {
    hide LeafCut, EntriesSize;
    InsertLeafFits(es, e, pageSize);
    SmallestFirst(es, e);
  }

  lemma SmallestFirst(es: seq<Entry>, e: Entry)
    ensures Upserted(es, e) != [] && (e.key == [] ==> Upserted(es, e)[0] == e)
  {
  }

  lemma AbsorbFirstWrite(t: Node, i: nat, result: InsertResult, w0: Work, w: Work, e: Entry, pageSize: nat)
    requires t.Inner? && |t.keys| >= 1 && |t.ids| == |t.kids| == |t.keys| + 1 && i < |t.kids|
    requires FirstWrite(w0, w, e) && (w.writes == w0.writes ==> StartsWithLeaf(result, e))
    ensures var w' := Absorb(t, i, result, w, pageSize).1; FirstWrite(w0, w', e) && w'.writes != w0.writes
  {
    hide Settled;
  }

  lemma {:induction false} InsertFirstWrite(t: Node, h: nat, e: Entry, pageSize: nat, w: Work)
    requires MIN_PAGE_SIZE <= pageSize && Fits(t, h, pageSize) && WithinLimits(e, pageSize)
    ensures var (r, w') := InsertInto(t, h, e, pageSize, w);
            FirstWrite(w, w', e) && (w'.writes == w.writes ==> StartsWithLeaf(r, e))
    decreases h
  {
    hide ChildRank, InsertLeaf, Sized, Absorb, WithinLimits, StartsWithLeaf;
    match t {
      case Leaf(es) => LeafIsFitting(es, h, pageSize); LeafResult(es, e, pageSize);
      case Inner(keys, ids, kids) =>
        var i := ChildRank(keys, e.key);
        KidFits(t, h, i, pageSize);
        InsertFirstWrite(kids[i], h - 1, e, pageSize, w);
        var (result, w1) := InsertInto(kids[i], h - 1, e, pageSize, w);
        AbsorbFirstWrite(t, i, result, w, Orphaned(w1, ids[i]), e, pageSize);
    }
  }

  /** A put's first image is a leaf, written to the next id the allocator hands out; the smallest key comes first in it. */
  lemma PutFirstWrite(root: Rooted, e: Entry, pageSize: nat, w: Work)
    requires MIN_PAGE_SIZE <= pageSize && Fits(root.tree, root.height, pageSize) && WithinLimits(e, pageSize)
    requires w.writes == []
    ensures var writes := PutTree(root, e, pageSize, w).1.writes;
            writes != [] && writes[0].id == NextId(w) && LeafOf(writes[0].node, e)
  {
    hide InsertInto, Sized, WithinLimits;
    InsertFirstWrite(root.tree, root.height, e, pageSize, w);
  }

  /* ---- The window ---- */

  /** After a promoting gate the old root is the next page to be reused, and the next put starts by writing a leaf there. */
  lemma NextPutReusesRoot(before: Rooted, after: Rooted, w: Writer, e: Entry, pageSize: nat)
    requires MIN_PAGE_SIZE <= pageSize && OldPagesKept(before, w, after, true)
    requires WellFormed(after.tree, after.height, pageSize) && WithinLimits(e, pageSize)
    ensures var writes := PutTree(after, e, pageSize, Fresh(w)).1.writes;
            && writes != [] && writes[0].id == before.id && LeafOf(writes[0].node, e)
            && ContentSize(ContentOf(writes[0].node)) <= pageSize
  {
    hide PutTree, PagesOf, Sized, Ordered, WithinLimits;
    PutFirstWrite(after, e, pageSize, Fresh(w));
    NoImages(pageSize);
    PutImagesFit(after, e, pageSize, Fresh(w));
    var writes := PutTree(after, e, pageSize, Fresh(w)).1.writes;
    assert writes[0] in writes;
  }

  /** A stored tree whose root page holds a leaf's image is that leaf. */
  lemma RootPageIsLeaf(root: Rooted, d: Disk, node: Node, pageSize: nat)
    requires Good(root, d, pageSize) && root.id in d && d[root.id] == Image(node, root.id, pageSize)
    requires node.Leaf? && ContentSize(ContentOf(node)) <= pageSize <= U16_MAX && root.id < U64_RANGE
    ensures root.tree == node
  {
    hide Image, WellFormed, ContentSize, PageBytes;
    RootKids(d, root, pageSize);
    var a := root.tree;
    assert PageBytes(ContentOf(a), root.id, pageSize) == PageBytes(ContentOf(node), root.id, pageSize);
    TagIsFirst(ContentOf(a), root.id, pageSize);
    TagIsFirst(ContentOf(node), root.id, pageSize);
    FittingIsEncodable(ContentOf(a));
    FittingIsEncodable(ContentOf(node));
    PageBytesInjective(ContentOf(a), root.id, ContentOf(node), root.id, pageSize);
  }

  lemma TagIsFirst(c: Content, id: PageId, pageSize: nat)
    requires ContentSize(c) <= pageSize
    ensures PageBytes(c, id, pageSize) != [] && PageBytes(c, id, pageSize)[0] == Tag(c)
  {
  }

  lemma WindowFacts(s: System)
    requires Inv(s) && InWindow(s)
    ensures OldPagesKept(s.published, s.writer, s.phase.after, true) && PageSizeOk(s.pageSize)
    ensures WellFormed(s.phase.after.tree, s.phase.after.height, s.pageSize) && s.published.id < U64_RANGE
    ensures Shaped(s.phase.after.tree, s.phase.after.height)
    ensures s.phase.Chaining? ==> PagesNeeded(s.writer, s.pageSize) <= |s.writer.chain|
  {
    hide Folded, MapOf, HeaderNames, Persisted, PagesOf, Succeeds, RootStored, WellFormed, Accounted, PagesNeeded, Applied,
         ChainWrites;
    ShapedIfGood(s.disk, s.phase.after, s.pageSize);
    var id := s.published.id;
    assert id in PagesOf(s.published) by { RootInPages(s.published); }
    StoreState.Parts(s.phase.after, s.writer, s.leaked, id);
  }

  lemma RootInPages(root: Rooted)
    ensures root.id in PagesOf(root)
  {
  }

  /** The writer can always finish the put in progress. */
  lemma FinishPut(s: System) returns (steps: seq<Step>, s': System)
    requires Inv(s) && InWindow(s)
    ensures Leads(s, steps, s') && OnlyWriter(steps)
    ensures s'.phase.Idle? && s'.published == s.phase.after && s'.writer == s.writer && s'.readers == s.readers
  {
    hide Inv, Enabled, StoreProtocol.After, Leads, PagesOf, WellFormed, OldPagesKept, PagesNeeded;
    WindowFacts(s);
    if s.phase.Chaining? {
      steps, s' := FromGate(s);
    } else {
      steps, s' := [Publish], LastStep(s);
    }
  }

  ghost function LastStep(s: System): (s': System)
    requires s.phase.Publishing? && s.pageSize >= MIN_PAGE_SIZE
    ensures Leads(s, [Publish], s')
    ensures s' == s.(published := s.phase.after, puts := s.puts + [s.phase.entry], phase := Idle)
  {
    OneStep(s, Publish);
    StoreProtocol.After(s, Publish)
  }

  lemma CanPut(s: System, e: Entry)
    requires Inv(s) && s.phase.Idle? && WithinLimits(e, s.pageSize) && RoomFor(s.writer, s.published.height)
    ensures Enabled(s, Begin(e))
  {
    hide Folded, MapOf, HeaderNames, Persisted, Accounted, PagesOf, RoomFor, WithinLimits, RootStored, Sized, Ordered;
  }

  /**
   Whatever the window's next steps are, the writer can go on to a put whose first image lands on the root page that a
   reader loading in the window holds.
   */
  lemma WindowLoadIsOverwritten(s: System, e: Entry) returns (more: seq<Step>, s': System, node: Node)
    requires Inv(s) && InWindow(s) && WithinLimits(e, s.pageSize) && RoomFor(s.writer, s.phase.after.height)
    ensures Leads(s, more, s') && OnlyWriter(more) && Inv(s') && s'.readers == s.readers && LeafOf(node, e)
    ensures s.published.id in s'.disk && s'.disk[s.published.id] == Image(node, s.published.id, s.pageSize)
    ensures s.published.tree != node ==> !Good(s.published, s'.disk, s.pageSize)
  {
    hide Inv, Good, Enabled, StoreProtocol.After, Leads, PagesOf, PutTree, Image, OldPagesKept, WellFormed, RoomFor,
         WithinLimits, ContentSize, PagesNeeded;
    WindowFacts(s);
    var steps, s1 := FinishPut(s);
    LeadsInv(s, steps, s1);
    CanPut(s1, e);
    NextPutReusesRoot(s.published, s.phase.after, s.writer, e, s.pageSize);
    node := PutTree(s.phase.after, e, s.pageSize, Fresh(s.writer)).1.writes[0].node;
    var rest;
    rest, s' := FirstImageOf(s1, e);
    more := steps + rest;
    LeadsOn(s, steps, s1, rest, s');
    LeadsInv(s, more, s');
    if Good(s.published, s'.disk, s.pageSize) {
      RootPageIsLeaf(s.published, s'.disk, node, s.pageSize);
    }
  }

  /** A put begun and its first image written. */
  lemma FirstImageOf(s: System, e: Entry) returns (steps: seq<Step>, s': System)
    requires Enabled(s, Begin(e)) && PutTree(s.published, e, s.pageSize, Fresh(s.writer)).1.writes != []
    ensures Leads(s, steps, s') && OnlyWriter(steps) && s'.readers == s.readers
    ensures var w := PutTree(s.published, e, s.pageSize, Fresh(s.writer)).1.writes[0];
            s'.disk == s.disk[w.id := Image(w.node, w.id, s.pageSize)]
  {
    hide PutTree, Image, Leads;
    OneStep(s, Begin(e));
    var s1 := StoreProtocol.After(s, Begin(e));
    OneStep(s1, WriteImage);
    s' := StoreProtocol.After(s1, WriteImage);
    LeadsOn(s, [Begin(e)], s1, [WriteImage], s');
    steps := [Begin(e)] + [WriteImage];
  }

  /** From any moment of the window the next put can destroy the snapshot a reader loads then. */
  lemma WindowLoadIsLost(s: System) returns (more: seq<Step>, s': System)
    requires Inv(s) && InWindow(s) && RoomFor(s.writer, s.phase.after.height)
    ensures Leads(s, more, s') && OnlyWriter(more) && s'.readers == s.readers && !Good(s.published, s'.disk, s.pageSize)
  {
    hide Inv, Good, Leads, RoomFor, Image, WellFormed, OldPagesKept;
    WindowFacts(s);
    var e, e' := Entry([], []), Entry([], [1]);
    var t := s.published.tree;
    var node;
    if t.Leaf? && t.entries != [] && t.entries[0] == e {
      more, s', node := WindowLoadIsOverwritten(s, e');
    } else {
      more, s', node := WindowLoadIsOverwritten(s, e);
    }
  }

  /* ---- When a snapshot is safe ---- */

  /** However the run goes on, this snapshot stays readable until the reader leaves. */
  ghost predicate ReadableWhileHeld(s: System, r: Reader, x: Rooted) {
    forall more, s' :: Leads(s, more, s') && Exit(r) !in more ==> Good(x, s'.disk, s'.pageSize)
  }

  lemma {:induction false} LeadsSafe(s: System, more: seq<Step>, s': System, r: Reader, x: Rooted)
    requires Inv(s) && Safe(s, r, x) && Leads(s, more, s') && Exit(r) !in more
    ensures Safe(s', r, x)
    decreases |more|
  {
    hide Inv, Safe, Enabled, StoreProtocol.After;
    if more != [] {
      StepKeepsInv(s, more[0]);
      SafeStep(s, more[0], r, x);
      assert forall step :: step in more[1..] ==> step in more;
      LeadsSafe(StoreProtocol.After(s, more[0]), more[1..], s', r, x);
    }
  }

  lemma SafeIsReadable(s: System, r: Reader, x: Rooted)
    requires Inv(s) && Safe(s, r, x)
    ensures ReadableWhileHeld(s, r, x)
  {
    hide Inv, Good, Leads;
    forall more, s' | Leads(s, more, s') && Exit(r) !in more
      ensures Good(x, s'.disk, s'.pageSize)
    {
      LeadsSafe(s, more, s', r, x);
    }
  }

  lemma LostIsNotReadable(s: System, r: Reader)
    requires Inv(s) && InWindow(s) && RoomFor(s.writer, s.phase.after.height)
    ensures !ReadableWhileHeld(s, r, s.published)
  {
    hide Inv, Good, Leads, RoomFor;
    var more, s' := WindowLoadIsLost(s);
    LeadsInv(s, more, s');
  }

  lemma LoadStep(s: System, r: Reader)
    requires Enabled(s, Load(r))
    ensures var s' := StoreProtocol.After(s, Load(r));
            s'.published == s.published && s'.writer == s.writer && s'.phase == s.phase && r in s'.readers
  {
  }

  /** A reader counted since the window, and no page ids left for another put: nothing can be begun, so nothing overwritten. */
  ghost predicate Stuck(s: System, r: Reader, x: Rooted) {
    && r in s.readers && Good(x, s.disk, s.pageSize)
    && match s.phase
       case Idle => !RoomFor(s.writer, s.published.height)
       case Flushing(_, _, _, _, _, _) => false
       case Chaining(_, after, _, _, _, _, _) => s.published == x && !RoomFor(s.writer, after.height)
       case Publishing(_, after, _) => s.published == x && !RoomFor(s.writer, after.height)
  }

  lemma StuckStep(s: System, step: Step, r: Reader, x: Rooted)
    requires Inv(s) && Enabled(s, step) && Stuck(s, r, x) && step != Exit(r)
    ensures Stuck(StoreProtocol.After(s, step), r, x)
  {
    hide Inv, Good, Stuck, Enabled, StoreProtocol.After;
    StepKeepsInv(s, step);
    match step
    case WriteChain => StuckChain(s, r, x);
    case WriteHeader => StuckHeader(s, r, x);
    case Publish => StuckPublish(s, r, x);
    case _ => StuckRest(s, step, r, x);
  }

  lemma StuckChain(s: System, r: Reader, x: Rooted)
    requires Enabled(s, WriteChain) && Stuck(s, r, x) && Inv(StoreProtocol.After(s, WriteChain))
    ensures Stuck(StoreProtocol.After(s, WriteChain), r, x)
  {
    hide Inv, Good, RoomFor, HeaderNames, Folded, MapOf;
    PublishedFacts(StoreProtocol.After(s, WriteChain));
  }

  lemma StuckHeader(s: System, r: Reader, x: Rooted)
    requires Enabled(s, WriteHeader) && Stuck(s, r, x) && Inv(StoreProtocol.After(s, WriteHeader))
    ensures Stuck(StoreProtocol.After(s, WriteHeader), r, x)
  {
    hide Inv, Good, RoomFor, HeaderNames, Folded, MapOf, HeaderPage, HeaderOf, PagesNeeded;
    PublishedFacts(StoreProtocol.After(s, WriteHeader));
  }

  lemma StuckPublish(s: System, r: Reader, x: Rooted)
    requires Enabled(s, Publish) && Stuck(s, r, x)
    ensures Stuck(StoreProtocol.After(s, Publish), r, x)
  {
    hide Good, RoomFor;
  }

  /** Other readers come and go; nothing else can happen. */
  lemma StuckRest(s: System, step: Step, r: Reader, x: Rooted)
    requires Enabled(s, step) && Stuck(s, r, x) && step != Exit(r)
    requires step != WriteChain && step != WriteHeader && step != Publish
    ensures Stuck(StoreProtocol.After(s, step), r, x)
  {
    hide Good, RoomFor, PagesNeeded;
    match step
    case Enter(_) =>
    case Load(_) =>
    case Exit(_) =>
    case _ => assert false;
  }

  lemma {:induction false} StuckReads(s: System, more: seq<Step>, s': System, r: Reader, x: Rooted)
    requires Inv(s) && Stuck(s, r, x) && Leads(s, more, s') && Exit(r) !in more
    ensures Good(x, s'.disk, s'.pageSize)
    decreases |more|
  {
    hide Inv, Good, Stuck, Enabled, StoreProtocol.After;
    if more == [] {
      StuckIsGood(s, r, x);
    } else {
      StepKeepsInv(s, more[0]);
      StuckStep(s, more[0], r, x);
      assert forall step :: step in more[1..] ==> step in more;
      StuckReads(StoreProtocol.After(s, more[0]), more[1..], s', r, x);
    }
  }

  lemma StuckIsGood(s: System, r: Reader, x: Rooted)
    requires Stuck(s, r, x)
    ensures Good(x, s.disk, s.pageSize)
  {
  }

  lemma StuckIsReadable(s: System, r: Reader)
    requires Inv(s) && InWindow(s) && r in s.readers && !RoomFor(s.writer, s.phase.after.height)
    ensures ReadableWhileHeld(s, r, s.published)
  {
    PublishedFacts(s);
    hide Inv, Good, Leads, RoomFor, HeaderNames, Folded, MapOf;
    forall more, s' | Leads(s, more, s') && Exit(r) !in more
      ensures Good(s.published, s'.disk, s'.pageSize)
    {
      StuckReads(s, more, s', r, s.published);
    }
  }

  /** In the window, with page ids left for one more put. */
  predicate Exposed(s: System) {
    InWindow(s) && RoomFor(s.writer, s.phase.after.height)
  }

  /**
   The snapshot a reader loads stays readable for as long as the reader is counted, whatever happens, exactly when it was
   loaded outside the window, or when page ids have run out for good.
   */
  lemma IsolationExactly(d: Disk, pageSize: nat, trace: seq<System>, steps: seq<Step>, j: nat, r: Reader)
    requires Run(d, pageSize, trace, steps) && j < |steps| && steps[j] == Load(r)
    ensures ReadableWhileHeld(trace[j + 1], r, trace[j].published) <==> !Exposed(trace[j])
  {
    var s, s' := trace[j], trace[j + 1];
    assert Follows(s, steps[j], s');
    LoadStep(s, r);
    CountedIfLoading(s, r);
    hide Enabled, StoreProtocol.After, Inv, Safe, RoomFor, ReadableWhileHeld;
    RunInv(d, pageSize, trace, steps, j);
    RunInv(d, pageSize, trace, steps, j + 1);
    if Exposed(s) {
      LostIsNotReadable(s', r);
    } else if InWindow(s) {
      StuckIsReadable(s', r);
    } else {
      LoadIsSafe(s, r);
      SafeStep(s, Load(r), r, s.published);
      SafeIsReadable(s', r, s.published);
    }
  }

  lemma CountedIfLoading(s: System, r: Reader)
    requires Enabled(s, Load(r))
    ensures r in s.readers
  {
  }

  /* ---- A run that breaks isolation ---- */

  const FIRST := Entry([1], [])

  /** The first put into an empty store writes page 2 and orphans page 1. */
  lemma FirstPut(pageSize: nat)
    requires MIN_PAGE_SIZE <= pageSize
    ensures PutTree(EMPTY_ROOT, FIRST, pageSize, Fresh(FreshWriter()))
         == (Rooted(2, Leaf([FIRST]), 0), Work([], 3, [PageWrite(2, Leaf([FIRST]))], [1]))
  {
    var w := Fresh(FreshWriter());
    assert w == Work([], 2, [], []) && Orphaned(w, 1).freed == [1];
    assert Wrote(Orphaned(w, 1), Leaf([FIRST])).writes == [PageWrite(2, Leaf([FIRST]))];
    assert Upserted([], FIRST) == [FIRST];
    assert [FIRST][..0] == [];
    assert EntriesSize([FIRST]) == 5;
    assert InsertLeaf([], FIRST, pageSize) == Single(Leaf([FIRST]));
  }

  /** The writer after that put's gate: page 1 reusable, one chain page. */
  lemma FirstGate(pageSize: nat)
    requires MIN_PAGE_SIZE <= pageSize
    ensures var w := ChainGrown(Gate(Writer(3, [], [], []), [1], true), pageSize);
            w == Writer(4, [1], [], [3]) && PagesNeeded(w, pageSize) == 1 && |ChainWrites(w, pageSize)| == 1
  {
    var g := Gate(Writer(3, [], [], []), [1], true);
    assert g == Writer(3, [1], [], []);
    assert Payload(g) == [1];
    assert |Chunks([1], ChainCapacity(pageSize))| == 1;
  }

  lemma Steps(s: System, step: Step) returns (s': System)
    requires Inv(s) && Enabled(s, step)
    ensures s' == StoreProtocol.After(s, step) && Inv(s') && Follows(s, step, s')
  {
    hide Inv, StoreProtocol.After;
    s' := StoreProtocol.After(s, step);
    StepKeepsInv(s, step);
  }

  /** A fresh store reaches, in one put, a window in which a reader has loaded the root. */
  lemma ReachesWindow(d: Disk, pageSize: nat) returns (trace: seq<System>, steps: seq<Step>)
    requires PageSizeOk(pageSize)
    ensures steps == [Begin(FIRST), WriteImage, PassGate, WriteChain, WriteHeader, Enter(0), Load(0)]
    ensures Run(d, pageSize, trace, steps) && |trace| == 8 && Inv(trace[7])
    ensures InWindow(trace[6]) && InWindow(trace[7]) && trace[7].phase.Publishing?
    ensures trace[6].published == trace[7].published == EMPTY_ROOT && 0 in trace[7].readers
    ensures RoomFor(trace[7].writer, trace[7].phase.after.height) && trace[7].pageSize == pageSize
  {
    hide Inv, PutTree, Image, HeaderPage, HeaderOf, ChainGrown, ChainWrites, PagesNeeded, Bootstrapped;
    var s0 := Created(d, pageSize);
    CreatedInv(d, pageSize);
    FirstPut(pageSize);
    FirstGate(pageSize);
    assert s0.writer == FreshWriter() by { CreatedWriter(d, pageSize); }
    var s1 := Steps(s0, Begin(FIRST));
    var s2 := Steps(s1, WriteImage);
    var s3 := Steps(s2, PassGate);
    var s4 := Steps(s3, WriteChain);
    var s5 := Steps(s4, WriteHeader);
    var s6 := Steps(s5, Enter(0));
    var s7 := Steps(s6, Load(0));
    trace := [s0, s1, s2, s3, s4, s5, s6, s7];
    steps := [Begin(FIRST), WriteImage, PassGate, WriteChain, WriteHeader, Enter(0), Load(0)];
    hide Enabled, StoreProtocol.After;
    forall k: nat | k < |steps|
      ensures Follows(trace[k], steps[k], trace[k + 1])
    {
      assert k == 0 || k == 1 || k == 2 || k == 3 || k == 4 || k == 5 || k == 6;
    }
  }

  lemma CreatedWriter(d: Disk, pageSize: nat)
    requires pageSize >= MIN_PAGE_SIZE
    ensures Created(d, pageSize).writer == FreshWriter()
  {
  }

  /** Such loads happen: some run of a fresh store loses the snapshot of a reader that is still counted. */
  lemma IsolationNeedsHypothesis(d: Disk, pageSize: nat) returns (trace: seq<System>, steps: seq<Step>)
    requires PageSizeOk(pageSize)
    ensures Run(d, pageSize, trace, steps) && 6 < |steps|
    ensures steps[6] == Load(0) && InWindow(trace[6]) && Exit(0) !in steps
    ensures 0 in trace[|steps|].readers && !Good(trace[6].published, trace[|steps|].disk, pageSize)
  {
    hide Inv, RoomFor, Follows, Good, PagesOf, Created, Leads;
    var early, first := ReachesWindow(d, pageSize);
    var more, s' := WindowLoadIsLost(early[7]);
    trace := RunOn(d, pageSize, early, first, more, s');
    steps := first + more;
    assert trace[6] == early[6];
  }
}
