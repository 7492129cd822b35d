/** Uninterrupted puts: the protocol's steps add up to the whole-put function, and space is reused. */
module StoreRuns {
  import opened SetFacts
  import opened PageFormat
  import opened SplitPoints
  import opened KeySearch
  import opened HeaderPages
  import opened TreeNodes
  import opened TreeInsert
  import opened TreeStock
  import opened TreeStorage
  import opened StoreSpec
  import opened StoreState
  import opened StorePut
  import opened StoreProtocol
  import opened StoreSafety

  ghost predicate Leads(s: System, steps: seq<Step>, s': System)
    decreases |steps|
  {
    if steps == [] then s' == s
    else Enabled(s, steps[0]) && Leads(StoreProtocol.After(s, steps[0]), steps[1..], s')
  }

  lemma {:induction false} LeadsOn(s: System, steps: seq<Step>, s1: System, more: seq<Step>, s': System)
    requires Leads(s, steps, s1) && Leads(s1, more, s')
    ensures Leads(s, steps + more, s')
    decreases |steps|
  {
    hide Enabled, StoreProtocol.After;
    if steps == [] {
      assert steps + more == more;
    } else {
      LeadsOn(StoreProtocol.After(s, steps[0]), steps[1..], s1, more, s');
      assert (steps + more)[1..] == steps[1..] + more;
    }
  }

  lemma OneStep(s: System, step: Step)
    requires Enabled(s, step)
    ensures Leads(s, [step], StoreProtocol.After(s, step))
  {
    hide Enabled, StoreProtocol.After;
    var s' := StoreProtocol.After(s, step);
    assert [step][1..] == [] && Leads(s', [], s');
  }

  lemma {:induction false} LeadsInv(s: System, steps: seq<Step>, s': System)
    requires Inv(s) && Leads(s, steps, s')
    ensures Inv(s') && s'.pageSize == s.pageSize
    decreases |steps|
  {
    hide Inv, Enabled, StoreProtocol.After;
    if steps != [] {
      StepKeepsInv(s, steps[0]);
      PageSizeStays(s, steps[0]);
      LeadsInv(StoreProtocol.After(s, steps[0]), steps[1..], s');
    }
  }

  /** A run continued by more steps is a run. */
  lemma {:induction false} RunOn(d: Disk, pageSize: nat, trace: seq<System>, steps: seq<Step>, more: seq<Step>, s': System)
    returns (trace': seq<System>)
    requires Run(d, pageSize, trace, steps) && Leads(trace[|trace| - 1], more, s')
    ensures Run(d, pageSize, trace', steps + more) && trace <= trace' && trace'[|trace'| - 1] == s'
    decreases |more|
  {
    hide Enabled, StoreProtocol.After, Created;
    if more == [] {
      assert steps + more == steps;
      trace' := trace;
    } else {
      var s := trace[|trace| - 1];
      var s1 := StoreProtocol.After(s, more[0]);
      RunGrows(d, pageSize, trace, steps, more[0], s1);
      trace' := RunOn(d, pageSize, trace + [s1], steps + [more[0]], more[1..], s');
      assert (steps + [more[0]]) + more[1..] == steps + more;
    }
  }

  /** None of these steps is a reader's. */
  ghost predicate OnlyWriter(steps: seq<Step>) {
    forall i :: 0 <= i < |steps| ==> !steps[i].Enter? && !steps[i].Load? && !steps[i].Exit?
  }

  /** Writing out the remaining images. */
  lemma {:induction false} FlushAll(s: System) returns (steps: seq<Step>, s': System)
    requires s.phase.Flushing? && s.pageSize >= MIN_PAGE_SIZE && s.phase.done <= |s.phase.work.writes|
    requires s.disk == Flush(s.phase.base, s.phase.work.writes[..s.phase.done], s.pageSize)
    ensures Leads(s, steps, s') && OnlyWriter(steps)
    ensures s' == s.(disk := Flush(s.phase.base, s.phase.work.writes, s.pageSize),
                     phase := s.phase.(done := |s.phase.work.writes|))
    decreases |s.phase.work.writes| - s.phase.done
  {
    hide Flush, Image;
    var p := s.phase;
    if p.done == |p.work.writes| {
      assert p.work.writes[..p.done] == p.work.writes;
      steps, s' := [], s;
    } else {
      NextImage(p.base, p.work.writes, p.done, s.pageSize);
      OneStep(s, WriteImage);
      var s1 := StoreProtocol.After(s, WriteImage);
      var rest;
      rest, s' := FlushAll(s1);
      LeadsOn(s, [WriteImage], s1, rest, s');
      steps := [WriteImage] + rest;
    }
  }

  /** Writing out the remaining chain pages. */
  lemma {:induction false} ChainAll(s: System) returns (steps: seq<Step>, s': System)
    requires s.phase.Chaining? && s.pageSize >= MIN_PAGE_SIZE
    ensures Leads(s, steps, s') && OnlyWriter(steps)
    ensures s' == s.(disk := Applied(s.disk, s.phase.todo), phase := s.phase.(todo := []))
    decreases |s.phase.todo|
  {
    if s.phase.todo == [] {
      steps, s' := [], s;
    } else {
      OneStep(s, WriteChain);
      var s1 := StoreProtocol.After(s, WriteChain);
      var rest;
      rest, s' := ChainAll(s1);
      LeadsOn(s, [WriteChain], s1, rest, s');
      steps := [WriteChain] + rest;
    }
  }

  /** From the start of a put to the gate. */
  lemma UpToGate(s: System, e: Entry) returns (steps: seq<Step>, s3: System)
    requires Enabled(s, Begin(e))
    ensures Leads(s, steps, s3) && OnlyWriter(steps)
    ensures var (after, work) := PutTree(s.published, e, s.pageSize, Fresh(s.writer));
            var w := ChainGrown(Gate(Drawn(s.writer, work), work.freed, s.readers == map[]), s.pageSize);
            var d := Flush(s.disk, work.writes, s.pageSize);
            s3 == s.(disk := d, writer := w,
                     phase := Chaining(e, after, work, d, s.writer, ChainWrites(w, s.pageSize), s.readers == map[]))
  {
    hide PutTree, Flush, ChainWrites, ChainGrown, PagesNeeded, Gate, Drawn, RoomFor;
    OneStep(s, Begin(e));
    var s1 := StoreProtocol.After(s, Begin(e));
    NothingFlushed(s.disk, s1.phase.work.writes, s.pageSize);
    var flushing, s2 := FlushAll(s1);
    OneStep(s2, PassGate);
    s3 := StoreProtocol.After(s2, PassGate);
    hide Enabled, StoreProtocol.After, Leads;
    LeadsOn(s1, flushing, s2, [PassGate], s3);
    LeadsOn(s, [Begin(e)], s1, flushing + [PassGate], s3);
    steps := [Begin(e)] + (flushing + [PassGate]);
  }

  /** From the gate to publication. */
  lemma FromGate(s: System) returns (steps: seq<Step>, s': System)
    requires s.phase.Chaining? && s.pageSize >= MIN_PAGE_SIZE && PagesNeeded(s.writer, s.pageSize) <= |s.writer.chain|
    ensures Leads(s, steps, s') && OnlyWriter(steps)
    ensures var page := HeaderPage(HeaderOf(s.writer, s.phase.after.id, s.pageSize), s.pageSize);
            s' == s.(disk := Applied(s.disk, s.phase.todo)[HEADER_PAGE_ID := page], published := s.phase.after,
                     puts := s.puts + [s.phase.entry], phase := Idle)
  {
    hide Applied, PagesNeeded, HeaderPage, HeaderOf;
    var chaining, s1 := ChainAll(s);
    OneStep(s1, WriteHeader);
    var s2 := StoreProtocol.After(s1, WriteHeader);
    OneStep(s2, Publish);
    s' := StoreProtocol.After(s2, Publish);
    hide Enabled, StoreProtocol.After, Leads;
    LeadsOn(s1, [WriteHeader], s2, [Publish], s');
    LeadsOn(s, chaining, s1, [WriteHeader] + [Publish], s');
    steps := chaining + ([WriteHeader] + [Publish]);
  }

  /** A put with no reader activity in between can always run to its end, and ends where the whole-put function says. */
  lemma UninterruptedPut(s: System, e: Entry) returns (steps: seq<Step>, s': System)
    requires Enabled(s, Begin(e))
    ensures Leads(s, steps, s') && s'.phase.Idle? && s'.puts == s.puts + [e] && s'.readers == s.readers && OnlyWriter(steps)
    ensures (Snapshot(s'.disk, s'.published.id, s'.writer), s'.published)
         == PutDone(Snapshot(s.disk, s.published.id, s.writer), s.published, e, s.pageSize, s.readers == map[])
  {
    hide PutTree, Flush, Applied, ChainWrites, ChainGrown, PagesNeeded, HeaderPage, HeaderOf, Gate, Drawn, Leads,
         RoomFor;
    var work := PutTree(s.published, e, s.pageSize, Fresh(s.writer)).1;
    GrownEnough(Gate(Drawn(s.writer, work), work.freed, s.readers == map[]), s.pageSize);
    var first, s3 := UpToGate(s, e);
    var rest;
    rest, s' := FromGate(s3);
    LeadsOn(s, first, s3, rest, s');
    steps := first + rest;
  }

  lemma NothingFlushed(d: Disk, writes: seq<PageWrite>, pageSize: nat)
    ensures Flush(d, writes[..0], pageSize) == d
  {
  }

  /* ---- Space reuse ---- */

  /** Allocation draws on the free list first; the file grows only by what the list cannot supply. */
  ghost predicate DrawsFirst(w: Work, w': Work) {
    && |w.writes| <= |w'.writes|
    && var taken := |w'.writes| - |w.writes|;
    if taken <= |w.free| then w'.free == w.free[..|w.free| - taken] && w'.next == w.next
    else w'.free == [] && w'.next == w.next + taken - |w.free|
  }

  lemma DrawsOnce(w: Work, n: Node)
    ensures DrawsFirst(w, Wrote(w, n)) && Wrote(w, n).freed == w.freed
  {
  }

  lemma DrawsTwice(w: Work, w1: Work, w2: Work)
    requires DrawsFirst(w, w1) && DrawsFirst(w1, w2)
    ensures DrawsFirst(w, w2)
  {
  }

  lemma AbsorbDraws(t: Node, i: nat, result: InsertResult, w: Work, pageSize: nat)
    requires t.Inner? && |t.keys| >= 1 && |t.ids| == |t.kids| == |t.keys| + 1 && i < |t.kids|
    ensures var w' := Absorb(t, i, result, w, pageSize).1; DrawsFirst(w, w') && w'.freed == w.freed
  {
    hide Settled, Wrote, DrawsFirst;
    match result {
      case Single(n) => DrawsOnce(w, n);
      case Split(l, sep, r) =>
        DrawsOnce(w, l);
        DrawsOnce(Wrote(w, l), r);
        DrawsTwice(w, Wrote(w, l), Wrote(Wrote(w, l), r));
    }
  }

  lemma OrphanDrawsNothing(w: Work, w1: Work, id: PageId)
    requires DrawsFirst(w, w1)
    ensures DrawsFirst(w, Orphaned(w1, id))
  {
  }

  /** An insertion orphans one page per level below the root. */
  lemma {:induction false} InsertDraws(t: Node, h: nat, e: Entry, pageSize: nat, w: Work)
    requires Shaped(t, h)
    ensures var w' := InsertInto(t, h, e, pageSize, w).1; DrawsFirst(w, w') && |w'.freed| == |w.freed| + h
    decreases h
  {
    hide ChildRank, InsertLeaf, Absorb, DrawsFirst;
    match t {
      case Leaf(_) => DrawsNothing(w);
      case Inner(keys, ids, kids) =>
        var i := ChildRank(keys, e.key);
        InsertDraws(kids[i], h - 1, e, pageSize, w);
        var (result, w1) := InsertInto(kids[i], h - 1, e, pageSize, w);
        OrphanDrawsNothing(w, w1, ids[i]);
        AbsorbDraws(t, i, result, Orphaned(w1, ids[i]), pageSize);
        DrawsTwice(w, Orphaned(w1, ids[i]), Absorb(t, i, result, Orphaned(w1, ids[i]), pageSize).1);
    }
  }

  lemma DrawsNothing(w: Work)
    ensures DrawsFirst(w, w)
  {
  }

  lemma PutDraws(root: Rooted, e: Entry, pageSize: nat, w: Work)
    requires Shaped(root.tree, root.height)
    ensures var w' := PutTree(root, e, pageSize, w).1;
            DrawsFirst(w, w') && |w'.freed| == |w.freed| + root.height + 1
  {
    hide InsertInto, Wrote, DrawsFirst;
    InsertDraws(root.tree, root.height, e, pageSize, w);
    var (result, w1) := InsertInto(root.tree, root.height, e, pageSize, w);
    var w2 := Orphaned(w1, root.id);
    OrphanDrawsNothing(w, w1, root.id);
    match result {
      case Single(n) =>
        DrawsOnce(w2, n);
        DrawsTwice(w, w2, Wrote(w2, n));
      case Split(l, sep, r) =>
        var w3, w4 := Wrote(w2, l), Wrote(Wrote(w2, l), r);
        var top := Inner([sep], [NextId(w2), NextId(w3)], [l, r]);
        DrawsOnce(w2, l);
        DrawsOnce(w3, r);
        DrawsOnce(w4, top);
        DrawsTwice(w, w2, w3);
        DrawsTwice(w, w3, w4);
        DrawsTwice(w, w4, Wrote(w4, top));
    }
  }

  /** A put that splits nothing writes one page per level. */
  ghost predicate SplitsNothing(root: Rooted, e: Entry, pageSize: nat, w: Writer)
    requires Shaped(root.tree, root.height)
  {
    |PutTree(root, e, pageSize, Fresh(w)).1.writes| == root.height + 1
  }

  lemma {:induction false} ChunkCount(a: seq<PageId>, b: seq<PageId>, cap: nat)
    requires cap >= 1 && |a| == |b|
    ensures |Chunks(a, cap)| == |Chunks(b, cap)|
    decreases |a|
  {
    if |a| > cap {
      ChunkCount(a[cap..], b[cap..], cap);
    }
  }

  /**
   What a put leaves for later ones, oldest first: with no reader active the pages not drawn, those that were waiting
   and those it orphaned; otherwise its orphans queue behind those that wait already.
   */
  lemma PutLeavesPages(s: Snapshot, root: Rooted, e: Entry, pageSize: nat, quiescent: bool)
    requires Shaped(root.tree, root.height) && pageSize >= MIN_PAGE_SIZE
    ensures var work, w := PutTree(root, e, pageSize, Fresh(s.writer)).1, PutDone(s, root, e, pageSize, quiescent).0.writer;
            && work.free <= s.writer.free
            && w.free == work.free + (if quiescent then s.writer.pending + work.freed else [])
            && w.pending == (if quiescent then [] else s.writer.pending + work.freed)
  {
    hide PutTree, Flush, Applied, ChainWrites, HeaderPage, HeaderOf, Chunks;
    PutDraws(root, e, pageSize, Fresh(s.writer));
    var work := PutTree(root, e, pageSize, Fresh(s.writer)).1;
    GrownEnough(Gate(Drawn(s.writer, work), work.freed, quiescent), pageSize);
  }

  /** After any put that no reader saw, the orphans of its whole path are reusable. */
  lemma QuiescentPutRefillsFreeList(s: Snapshot, root: Rooted, e: Entry, pageSize: nat)
    requires Shaped(root.tree, root.height) && pageSize >= MIN_PAGE_SIZE
    ensures var (s', after) := PutDone(s, root, e, pageSize, true);
            && s'.writer.pending == [] && |s'.writer.free| >= root.height + 1
            && PagesNeeded(s'.writer, pageSize) <= |s'.writer.chain|
  {
    hide PutTree, DrawsFirst, Flush, Applied, ChainWrites, HeaderPage, HeaderOf, Chunks;
    PutDraws(root, e, pageSize, Fresh(s.writer));
    var work := PutTree(root, e, pageSize, Fresh(s.writer)).1;
    GrownEnough(Gate(Drawn(s.writer, work), work.freed, true), pageSize);
  }

  /**
   Steady state: with no readers, a put that splits nothing, after one that added no level, leaves the file
   as long as it was; every page it needs is reused, and so is every chain page.
   */
  lemma SteadyState(s: Snapshot, root: Rooted, e: Entry, e': Entry, pageSize: nat)
    requires Shaped(root.tree, root.height) && pageSize >= MIN_PAGE_SIZE
    requires var (s1, root1) := PutDone(s, root, e, pageSize, true);
             root1.height == root.height && Shaped(root1.tree, root1.height) && SplitsNothing(root1, e', pageSize, s1.writer)
    ensures var (s1, root1) := PutDone(s, root, e, pageSize, true);
            var (s2, root2) := PutDone(s1, root1, e', pageSize, true);
            s2.writer.next == s1.writer.next && s2.writer.chain == s1.writer.chain
            && |s2.writer.free| == |s1.writer.free|
  {
    QuiescentPutRefillsFreeList(s, root, e, pageSize);
    var (s1, root1) := PutDone(s, root, e, pageSize, true);
    SteadyPut(s1, root1, e', pageSize);
  }

  lemma SteadyPut(s: Snapshot, root: Rooted, e: Entry, pageSize: nat)
    requires Shaped(root.tree, root.height) && pageSize >= MIN_PAGE_SIZE && SplitsNothing(root, e, pageSize, s.writer)
    requires s.writer.pending == [] && |s.writer.free| >= root.height + 1
    requires PagesNeeded(s.writer, pageSize) <= |s.writer.chain|
    ensures var (s', after) := PutDone(s, root, e, pageSize, true);
            s'.writer.next == s.writer.next && s'.writer.chain == s.writer.chain
            && |s'.writer.free| == |s.writer.free|
  {
    hide PutTree, Flush, Applied, ChainWrites, HeaderPage, HeaderOf, Chunks;
    PutDraws(root, e, pageSize, Fresh(s.writer));
    var work := PutTree(root, e, pageSize, Fresh(s.writer)).1;
    var g := Gate(Drawn(s.writer, work), work.freed, true);
    assert |Payload(g)| == |Payload(s.writer)|;
    ChunkCount(Payload(g), Payload(s.writer), ChainCapacity(pageSize));
  }

  /* ---- Any run, put by put ---- */

  /** The state between puts is that of s0, or of s0 after one put of e whose gate read `quiescent`. */
  ghost predicate PutBy(s0: System, s: System, e: Entry, quiescent: bool)
    requires s0.pageSize >= MIN_PAGE_SIZE && Shaped(s0.published.tree, s0.published.height)
  {
    (Quiet(s), s.published) == PutDone(Quiet(s0), s0.published, e, s0.pageSize, quiescent)
  }

  /** How far the put begun after s0 has come; nothing is said beyond that put. */
  ghost predicate PutSoFar(s0: System, s: System, quiescent: bool)
    requires s0.pageSize >= MIN_PAGE_SIZE && Shaped(s0.published.tree, s0.published.height)
  {
    && s.pageSize == s0.pageSize && s0.puts <= s.puts
    && match s.phase
       case Idle =>
         if s.puts == s0.puts then s.published == s0.published && Quiet(s) == Quiet(s0)
         else |s.puts| == |s0.puts| + 1 ==> PutBy(s0, s, s.puts[|s0.puts|], quiescent)
       case Flushing(e, after, work, base, _, done) =>
         s.puts == s0.puts ==>
           && s.published == s0.published && done <= |work.writes|
           && (after, work) == PutTree(s0.published, e, s0.pageSize, Fresh(s0.writer))
           && s.writer == Drawn(s0.writer, work)
           && s.disk == Flush(s0.disk, work.writes[..done], s0.pageSize) && base == s0.disk
       case Chaining(e, after, work, gated, _, todo, promoted) =>
         s.puts == s0.puts ==>
           && s.published == s0.published && promoted == quiescent
           && (after, work) == PutTree(s0.published, e, s0.pageSize, Fresh(s0.writer))
           && s.writer == ChainGrown(Gate(Drawn(s0.writer, work), work.freed, quiescent), s0.pageSize)
           && PagesNeeded(s.writer, s.pageSize) <= |s.writer.chain|
           && Applied(s.disk, todo) == Applied(Flush(s0.disk, work.writes, s0.pageSize), ChainWrites(s.writer, s0.pageSize))
       case Publishing(e, after, promoted) =>
         s.puts == s0.puts ==>
           && s.published == s0.published && promoted == quiescent
           && (Snapshot(s.disk, after.id, s.writer), after) == PutDone(Quiet(s0), s0.published, e, s0.pageSize, quiescent)
  }

  /** What the put's gate read, once it has. */
  function Reading(s: System, step: Step, quiescent: bool): bool {
    if step == PassGate then s.readers == map[] else quiescent
  }

  lemma PutSoFarStep(s0: System, s: System, step: Step, quiescent: bool)
    requires s0.pageSize >= MIN_PAGE_SIZE && Shaped(s0.published.tree, s0.published.height)
    requires PutSoFar(s0, s, quiescent) && Enabled(s, step) && step != Reopen
    ensures PutSoFar(s0, StoreProtocol.After(s, step), Reading(s, step, quiescent))
  {
    hide PutSoFar, Enabled, StoreProtocol.After, Shaped;
    match step
    case Begin(e) => BeginSoFar(s0, s, e, quiescent);
    case WriteImage => ImageSoFar(s0, s, quiescent);
    case PassGate => GateSoFar(s0, s, quiescent);
    case WriteChain => ChainSoFar(s0, s, quiescent);
    case WriteHeader => HeaderCompletes(s0, s, quiescent);
    case _ => QuietSoFar(s0, s, step, quiescent);
  }

  lemma QuietSoFar(s0: System, s: System, step: Step, quiescent: bool)
    requires s0.pageSize >= MIN_PAGE_SIZE && Shaped(s0.published.tree, s0.published.height)
    requires PutSoFar(s0, s, quiescent) && Enabled(s, step) && (step.Enter? || step.Load? || step.Exit? || step == Publish)
    ensures PutSoFar(s0, StoreProtocol.After(s, step), quiescent)
  {
    hide PutTree, Flush, Applied, ChainWrites, ChainGrown, PagesNeeded, Gate, Drawn, Shaped, PutDone;
  }

  lemma BeginSoFar(s0: System, s: System, e: Entry, quiescent: bool)
    requires s0.pageSize >= MIN_PAGE_SIZE && Shaped(s0.published.tree, s0.published.height)
    requires PutSoFar(s0, s, quiescent) && Enabled(s, Begin(e))
    ensures PutSoFar(s0, StoreProtocol.After(s, Begin(e)), quiescent)
  {
    hide PutTree, Flush, Drawn, RoomFor, Shaped, PutDone;
    NothingFlushed(s.disk, StoreProtocol.After(s, Begin(e)).phase.work.writes, s.pageSize);
  }

  lemma ImageSoFar(s0: System, s: System, quiescent: bool)
    requires s0.pageSize >= MIN_PAGE_SIZE && Shaped(s0.published.tree, s0.published.height)
    requires PutSoFar(s0, s, quiescent) && Enabled(s, WriteImage)
    ensures PutSoFar(s0, StoreProtocol.After(s, WriteImage), quiescent)
  {
    hide PutTree, Flush, Drawn, Image, Shaped;
    NextImage(s.phase.base, s.phase.work.writes, s.phase.done, s.pageSize);
  }

  lemma GateSoFar(s0: System, s: System, quiescent: bool)
    requires s0.pageSize >= MIN_PAGE_SIZE && Shaped(s0.published.tree, s0.published.height)
    requires PutSoFar(s0, s, quiescent) && Enabled(s, PassGate)
    ensures PutSoFar(s0, StoreProtocol.After(s, PassGate), s.readers == map[])
  {
    hide PutTree, Flush, Applied, ChainWrites, ChainGrown, PagesNeeded, Gate, Drawn, Shaped;
    assert s.phase.work.writes[..s.phase.done] == s.phase.work.writes;
    GrownEnough(Gate(s.writer, s.phase.work.freed, s.readers == map[]), s.pageSize);
  }

  lemma ChainSoFar(s0: System, s: System, quiescent: bool)
    requires s0.pageSize >= MIN_PAGE_SIZE && Shaped(s0.published.tree, s0.published.height)
    requires PutSoFar(s0, s, quiescent) && Enabled(s, WriteChain)
    ensures PutSoFar(s0, StoreProtocol.After(s, WriteChain), quiescent)
  {
    hide PutTree, Flush, Applied, ChainWrites, ChainGrown, PagesNeeded, Gate, Drawn, Shaped;
    FirstApplied(s.disk, s.phase.todo);
  }

  lemma FirstApplied(d: Disk, writes: seq<DiskWrite>)
    requires writes != []
    ensures Applied(d[writes[0].id := writes[0].bytes], writes[1..]) == Applied(d, writes)
  {
  }

  lemma HeaderCompletes(s0: System, s: System, quiescent: bool)
    requires s0.pageSize >= MIN_PAGE_SIZE && Shaped(s0.published.tree, s0.published.height)
    requires PutSoFar(s0, s, quiescent) && Enabled(s, WriteHeader)
    ensures PutSoFar(s0, StoreProtocol.After(s, WriteHeader), quiescent)
  {
    hide PutTree, Flush, ChainWrites, ChainGrown, PagesNeeded, Gate, Drawn, HeaderPage, HeaderOf, Shaped;
  }

  /** Past the gate of the put begun after s0. */
  predicate PastGate(s0: System, s: System) {
    s.phase.Chaining? || s.phase.Publishing? || s.puts != s0.puts
  }

  lemma {:induction false} SegmentSoFar(d: Disk, pageSize: nat, trace: seq<System>, steps: seq<Step>, j: nat, k: nat)
    returns (g: nat)
    requires Run(d, pageSize, trace, steps) && j <= k < |trace| && trace[j].phase.Idle?
    requires forall m :: j <= m < k ==> steps[m] != Reopen
    ensures g < |trace| && trace[j].pageSize >= MIN_PAGE_SIZE && Shaped(trace[j].published.tree, trace[j].published.height)
    ensures PutSoFar(trace[j], trace[k], trace[g].readers == map[])
    ensures PastGate(trace[j], trace[k]) ==> j <= g < k && (|trace[k].puts| <= |trace[j].puts| + 1 ==> steps[g] == PassGate)
    decreases k - j
  {
    hide Inv, Enabled, StoreProtocol.After, Created, PutSoFar;
    RunInv(d, pageSize, trace, steps, j);
    IdleFacts(trace[j]);
    if j == k {
      g := j;
      NothingYetPut(trace[j], trace[j].readers == map[]);
    } else {
      g := SegmentSoFar(d, pageSize, trace, steps, j, k - 1);
      var s, step := trace[k - 1], steps[k - 1];
      assert Follows(s, step, trace[k - 1 + 1]);
      PutSoFarStep(trace[j], s, step, trace[g].readers == map[]);
      PutsGrow(s, step);
      if step == PassGate {
        g := k - 1;
      }
    }
  }

  lemma IdleFacts(s: System)
    requires Inv(s) && s.phase.Idle?
    ensures s.pageSize >= MIN_PAGE_SIZE && Shaped(s.published.tree, s.published.height)
  {
    hide HeaderNames, Folded, MapOf, Accounted, Persisted;
    ShapedIfGood(s.disk, s.published, s.pageSize);
  }

  lemma NothingYetPut(s: System, quiescent: bool)
    requires s.phase.Idle? && s.pageSize >= MIN_PAGE_SIZE && Shaped(s.published.tree, s.published.height)
    ensures PutSoFar(s, s, quiescent)
  {
  }

  lemma PutsGrow(s: System, step: Step)
    requires Enabled(s, step)
    ensures var s' := StoreProtocol.After(s, step);
            && (s'.puts == s.puts || (step == Publish && s'.puts == s.puts + [s.phase.entry] && s.phase.Publishing?))
            && (s'.phase.Chaining? && !s.phase.Chaining? ==> step == PassGate)
            && (s'.phase.Publishing? && !s.phase.Publishing? ==> s.phase.Chaining?)
            && (step == PassGate ==> s.phase.Flushing?)
  {
    hide PutTree, Drawn, Gate, ChainGrown, ChainWrites, HeaderPage, HeaderOf, Image, Reopened, PagesNeeded, RoomFor, Shaped;
  }

  /**
   In every run, whatever readers do in between, a put takes the store from one idle moment to the next as `PutDone` says,
   with the gate's reading at the moment it was passed.
   */
  lemma PutSegment(d: Disk, pageSize: nat, trace: seq<System>, steps: seq<Step>, j: nat, k: nat, e: Entry) returns (g: nat)
    requires Run(d, pageSize, trace, steps) && j <= k < |trace| && trace[j].phase.Idle? && trace[k].phase.Idle?
    requires trace[k].puts == trace[j].puts + [e] && forall m :: j <= m < k ==> steps[m] != Reopen
    ensures trace[j].pageSize == pageSize >= MIN_PAGE_SIZE && Shaped(trace[j].published.tree, trace[j].published.height)
    ensures j <= g < k && steps[g] == PassGate
    ensures (Quiet(trace[k]), trace[k].published)
         == PutDone(Quiet(trace[j]), trace[j].published, e, pageSize, trace[g].readers == map[])
  {
    hide Inv, Run, PutDone;
    RunInv(d, pageSize, trace, steps, j);
    g := SegmentSoFar(d, pageSize, trace, steps, j, k);
    assert trace[k].puts[|trace[j].puts|] == e;
  }

  /** Steady state over runs: a put that splits nothing, after one that added no level, with no reader about in either. */
  lemma SteadyRun(d: Disk, pageSize: nat, trace: seq<System>, steps: seq<Step>, i: nat, j: nat, k: nat, e: Entry, e': Entry)
    requires Run(d, pageSize, trace, steps) && i <= j <= k < |trace|
    requires trace[i].phase.Idle? && trace[j].phase.Idle? && trace[k].phase.Idle?
    requires trace[j].puts == trace[i].puts + [e] && trace[k].puts == trace[j].puts + [e']
    requires forall m :: i <= m < k ==> steps[m] != Reopen && trace[m].readers == map[]
    requires trace[j].published.height == trace[i].published.height
    requires Shaped(trace[j].published.tree, trace[j].published.height)
             && SplitsNothing(trace[j].published, e', pageSize, trace[j].writer)
    ensures trace[k].writer.next == trace[j].writer.next && trace[k].writer.chain == trace[j].writer.chain
    ensures |trace[k].writer.free| == |trace[j].writer.free|
  {
    hide Run, PutDone, SplitsNothing, Shaped;
    var g := PutSegment(d, pageSize, trace, steps, i, j, e);
    var g' := PutSegment(d, pageSize, trace, steps, j, k, e');
    SteadyState(Quiet(trace[i]), trace[i].published, e, e', pageSize);
  }

  /* ---- Every page comes back ---- */

  /** The readers leave one after another. */
  lemma {:induction false} AllLeave(s: System) returns (steps: seq<Step>, s': System)
    requires s.pageSize >= MIN_PAGE_SIZE
    ensures Leads(s, steps, s') && s' == s.(readers := map[]) && |steps| == |s.readers|
    ensures forall i :: 0 <= i < |steps| ==> steps[i].Exit?
    decreases |s.readers|
  {
    if s.readers == map[] {
      steps, s' := [], s;
    } else {
      var r := Pick(s.readers.Keys);
      var s1 := StoreProtocol.After(s, Exit(r));
      OneStep(s, Exit(r));
      OneFewer(s.readers, r);
      var rest;
      rest, s' := AllLeave(s1);
      LeadsOn(s, [Exit(r)], s1, rest, s');
      steps := [Exit(r)] + rest;
    }
  }

  lemma OneFewer(readers: map<Reader, set<Rooted>>, r: Reader)
    requires r in readers
    ensures |readers - {r}| == |readers| - 1
  {
    assert (readers - {r}).Keys == readers.Keys - {r};
    assert |(readers - {r}).Keys| == |readers - {r}| && |readers.Keys| == |readers|;
  }

  /** What a put drops from the tree is among its orphans. */
  lemma DroppedIsOrphaned(root: Rooted, e: Entry, pageSize: nat, w: Work, id: PageId)
    requires Shaped(root.tree, root.height) && w.writes == [] && w.freed == []
    requires id in PagesOf(root) && id !in PagesOf(PutTree(root, e, pageSize, w).0)
    ensures id in PutTree(root, e, pageSize, w).1.freed
  {
    hide PutTree, PagesOf;
    PutConserves(root, e, pageSize, w);
    var (after, w') := PutTree(root, e, pageSize, w);
    assert id in PagesOf(after) + multiset(w'.freed) + Written(w.writes);
  }

  /**
   No page waits for ever: from any moment between puts the readers can leave and any put with room for it be carried
   through, and then every page that waited, and every one the new tree no longer has, is free.
   */
  lemma PagesComeBack(d: Disk, pageSize: nat, trace: seq<System>, steps: seq<Step>, e: Entry)
    returns (trace': seq<System>, more: seq<Step>)
    requires Run(d, pageSize, trace, steps)
    requires var s := trace[|trace| - 1]; s.phase.Idle? && WithinLimits(e, pageSize) && RoomFor(s.writer, s.published.height)
    ensures Run(d, pageSize, trace', steps + more) && trace <= trace'
    ensures var s, s' := trace[|trace| - 1], trace'[|trace'| - 1];
            && s'.phase.Idle? && s'.puts == s.puts + [e] && s'.readers == map[] && s'.writer.pending == []
            && (forall id :: id in s.writer.pending ==> id in s'.writer.free)
            && (forall id :: id in PagesOf(s.published) && id !in PagesOf(s'.published) ==> id in s'.writer.free)
  {
    hide Inv, Leads, PutDone, PutTree, Shaped, RoomFor, WithinLimits, Run, PagesOf;
    LastOfRun(d, pageSize, trace, steps);
    var s := trace[|trace| - 1];
    IdleFacts(s);
    var leaving, s1 := AllLeave(s);
    var putting, s' := UninterruptedPut(s1, e);
    LeadsOn(s, leaving, s1, putting, s');
    more := leaving + putting;
    trace' := RunOn(d, pageSize, trace, steps, more, s');
    PutFrees(Quiet(s), s.published, e, pageSize, Quiet(s'), s'.published);
  }

  lemma LastOfRun(d: Disk, pageSize: nat, trace: seq<System>, steps: seq<Step>)
    requires Run(d, pageSize, trace, steps)
    ensures |trace| > 0 && Inv(trace[|trace| - 1]) && trace[|trace| - 1].pageSize == pageSize >= MIN_PAGE_SIZE
  {
    hide Inv;
    RunInv(d, pageSize, trace, steps, |trace| - 1);
  }

  /** With no reader about, a put frees every page that waited or that it dropped. */
  lemma PutFrees(s: Snapshot, root: Rooted, e: Entry, pageSize: nat, s': Snapshot, after: Rooted)
    requires Shaped(root.tree, root.height) && pageSize >= MIN_PAGE_SIZE
    requires (s', after) == PutDone(s, root, e, pageSize, true)
    ensures s'.writer.pending == [] && forall id :: id in s.writer.pending ==> id in s'.writer.free
    ensures forall id :: id in PagesOf(root) && id !in PagesOf(after) ==> id in s'.writer.free
  {
    var (a, work) := PutTree(root, e, pageSize, Fresh(s.writer));
    assert a == after;
    hide PutTree, PutDone, Shaped, PagesOf;
    PutLeavesPages(s, root, e, pageSize, true);
    forall id | id in PagesOf(root) && id !in PagesOf(after)
      ensures id in s'.writer.free
    {
      DroppedIsOrphaned(root, e, pageSize, Fresh(s.writer), id);
    }
  }
}
