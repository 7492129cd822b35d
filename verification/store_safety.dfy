/** The store's guarantees over every run of the commit protocol with readers interleaved. */
module StoreSafety {
  import opened Wrappers
  import opened ByteStrings
  import opened PageFormat
  import opened HeaderPages
  import opened TreeNodes
  import opened TreeInsert
  import opened TreeStock
  import opened TreeStorage
  import opened StoreSpec
  import opened StoreState
  import opened StorePut
  import opened StoreProtocol

  /** A run: the systems passed through from a fresh store, and the steps between them. */
  ghost predicate Run(d: Disk, pageSize: nat, trace: seq<System>, steps: seq<Step>) {
    && PageSizeOk(pageSize) && |trace| == |steps| + 1 && trace[0] == Created(d, pageSize)
    && forall k: nat :: k < |steps| ==> Follows(trace[k], steps[k], trace[k + 1])
  }

  ghost predicate Follows(s: System, step: Step, s': System) {
    Enabled(s, step) && s' == StoreProtocol.After(s, step)
  }

  lemma CreatedInv(d: Disk, pageSize: nat)
    requires PageSizeOk(pageSize)
    ensures Inv(Created(d, pageSize))
  {
    hide Image, HeaderPage, FromBytes, MapOf, Accounted, Persisted, WellFormed, RootStored;
    BootstrappedConsistent(d, pageSize);
    FreshHeader(d, pageSize);
  }

  lemma FreshHeader(d: Disk, pageSize: nat)
    requires PageSizeOk(pageSize)
    ensures HeaderNames(Bootstrapped(d, pageSize).disk, INITIAL_ROOT_PAGE_ID, pageSize)
    ensures MapOf([]) == map[]
  {
    hide Image, HeaderPage, FromBytes;
    HeaderRoundTrip(NewHeader(pageSize, INITIAL_ROOT_PAGE_ID, INITIAL_ROOT_PAGE_ID + 1), pageSize);
  }

  lemma PageSizeStays(s: System, step: Step)
    requires Enabled(s, step)
    ensures StoreProtocol.After(s, step).pageSize == s.pageSize
  {
    var _ := DiskStep(s, step);
  }

  lemma {:induction false} RunInv(d: Disk, pageSize: nat, trace: seq<System>, steps: seq<Step>, k: nat)
    requires Run(d, pageSize, trace, steps) && k < |trace|
    ensures Inv(trace[k]) && trace[k].pageSize == pageSize
    decreases k
  {
    hide Inv, Enabled, StoreProtocol.After;
    if k == 0 {
      CreatedInv(d, pageSize);
    } else {
      RunInv(d, pageSize, trace, steps, k - 1);
      assert Follows(trace[k - 1], steps[k - 1], trace[k - 1 + 1]);
      StepKeepsInv(trace[k - 1], steps[k - 1]);
      PageSizeStays(trace[k - 1], steps[k - 1]);
    }
  }

  lemma RunGrows(d: Disk, pageSize: nat, trace: seq<System>, steps: seq<Step>, step: Step, s': System)
    requires Run(d, pageSize, trace, steps) && Follows(trace[|trace| - 1], step, s')
    ensures Run(d, pageSize, trace + [s'], steps + [step])
  {
    hide Follows, Created;
    var trace', steps' := trace + [s'], steps + [step];
    forall k: nat | k < |steps'|
      ensures Follows(trace'[k], steps'[k], trace'[k + 1])
    {
      if k < |steps| {
        assert Follows(trace[k], steps[k], trace[k + 1]);
      }
    }
  }

  /* ---- Map refinement ---- */

  /** The puts begun so far, in order. */
  function BegunPuts(steps: seq<Step>): seq<Entry> {
    if steps == [] then []
    else
      var earlier, last := BegunPuts(steps[..|steps| - 1]), steps[|steps| - 1];
      if last.Begin? then earlier + [last.e] else earlier
  }

  /** The put in progress, if any. */
  function InProgress(s: System): seq<Entry> {
    if s.phase.Idle? then [] else [s.phase.entry]
  }

  /** Every begun put is published, in order, except the one in progress. */
  lemma {:induction false} PutsInOrder(d: Disk, pageSize: nat, trace: seq<System>, steps: seq<Step>, k: nat)
    requires Run(d, pageSize, trace, steps) && k < |trace|
    ensures trace[k].puts + InProgress(trace[k]) == BegunPuts(steps[..k])
    decreases k
  {
    hide Enabled, StoreProtocol.After;
    if k > 0 {
      PutsInOrder(d, pageSize, trace, steps, k - 1);
      assert Follows(trace[k - 1], steps[k - 1], trace[k - 1 + 1]);
      assert steps[..k][..k - 1] == steps[..k - 1] && steps[..k][k - 1] == steps[k - 1];
      PutsStep(trace[k - 1], steps[k - 1]);
    }
  }

  lemma PutsStep(s: System, step: Step)
    requires Enabled(s, step)
    ensures var s' := StoreProtocol.After(s, step);
            s'.puts + InProgress(s') == s.puts + InProgress(s) + if step.Begin? then [step.e] else []
  {
    hide PutTree, Drawn, Gate, ChainGrown, ChainWrites, HeaderPage, HeaderOf, Image, Reopened, PagesNeeded, RoomFor,
         Shaped;
  }

  /** At every moment the published tree is well formed and looking up any key in it is looking up the published puts. */
  lemma MapRefinement(d: Disk, pageSize: nat, trace: seq<System>, steps: seq<Step>, k: nat, key: Key)
    requires Run(d, pageSize, trace, steps) && k < |trace|
    ensures var t := trace[k].published;
            && WellFormed(t.tree, t.height, pageSize)
            && Lookup(t.tree, t.height, key) == Get(Folded(trace[k].puts), key)
            && trace[k].puts <= BegunPuts(steps[..k])
  {
    hide Folded, MapOf, Persisted, Accounted, HeaderNames, Lookup, RootStored, Sized;
    RunInv(d, pageSize, trace, steps, k);
    PutsInOrder(d, pageSize, trace, steps, k);
    PublishedFacts(trace[k]);
    var t := trace[k].published;
    LookupIsMapLookup(t.tree, t.height, None, None, key);
  }

  lemma PublishedFacts(s: System)
    requires Inv(s)
    ensures Good(s.published, s.disk, s.pageSize) && MapOf(Entries(s.published.tree)) == Folded(s.puts)
    ensures HeaderNames(s.disk, HeaderTree(s).id, s.pageSize)
  {
    hide MapOf, Good, HeaderNames;
  }

  /* ---- Page conservation ---- */

  lemma {:induction false} NothingLeaksWithoutReopening(d: Disk, pageSize: nat, trace: seq<System>, steps: seq<Step>, k: nat)
    requires Run(d, pageSize, trace, steps) && k < |trace| && forall j :: 0 <= j < k ==> steps[j] != Reopen
    ensures trace[k].leaked == multiset{}
    decreases k
  {
    hide Enabled;
    if k > 0 {
      NothingLeaksWithoutReopening(d, pageSize, trace, steps, k - 1);
      assert Follows(trace[k - 1], steps[k - 1], trace[k - 1 + 1]);
      LeakStep(trace[k - 1], steps[k - 1]);
    }
  }

  lemma LeakStep(s: System, step: Step)
    requires Enabled(s, step) && step != Reopen
    ensures StoreProtocol.After(s, step).leaked == s.leaked
  {
    hide PutTree, Drawn, Gate, ChainGrown, ChainWrites, HeaderPage, HeaderOf, Image, Reopened, PagesNeeded, RoomFor,
         Shaped;
  }

  /** After every commit, each id below `next` plays exactly one part, and no other id plays any. */
  lemma PagesConserved(d: Disk, pageSize: nat, trace: seq<System>, steps: seq<Step>, k: nat, id: PageId)
    requires Run(d, pageSize, trace, steps) && k < |trace| && trace[k].phase.Idle?
    ensures Accounted(trace[k].published, trace[k].writer, trace[k].leaked)
    ensures var s := trace[k];
            (if id == HEADER_PAGE_ID then 1 else 0) + PagesOf(s.published)[id] + multiset(s.writer.free)[id]
              + multiset(s.writer.pending)[id] + multiset(s.writer.chain)[id] + s.leaked[id]
            == if id < s.writer.next then 1 else 0
    ensures (forall j :: 0 <= j < k ==> steps[j] != Reopen) ==> trace[k].leaked == multiset{}
  {
    hide Folded, MapOf, Good, HeaderNames, Persisted, Accounted;
    RunInv(d, pageSize, trace, steps, k);
    if forall j :: 0 <= j < k ==> steps[j] != Reopen {
      NothingLeaksWithoutReopening(d, pageSize, trace, steps, k);
    }
    OnePartEach(trace[k].published, trace[k].writer, trace[k].leaked, id);
  }

  /* ---- Atomic commit ---- */

  /**
   At every moment of every run the header page decodes and names a tree stored intact: the one published
   before the current put until the header is written, and the put's result from then on.
   */
  lemma CommitIsAtomic(d: Disk, pageSize: nat, trace: seq<System>, steps: seq<Step>, k: nat)
    requires Run(d, pageSize, trace, steps) && k < |trace|
    ensures var s, t := trace[k], HeaderTree(trace[k]);
            && HeaderNames(s.disk, t.id, pageSize) && Good(t, s.disk, pageSize)
            && MapOf(Entries(t.tree)) == Folded(if s.phase.Publishing? then s.puts + [s.phase.entry] else s.puts)
  {
    hide Folded, MapOf, Good, Persisted, Accounted, HeaderNames, OldPagesKept;
    RunInv(d, pageSize, trace, steps, k);
    var s := trace[k];
    PublishedFacts(s);
    if s.phase.Publishing? {
      FoldedNext(s.puts, s.published, s.phase.entry, s.phase.after);
    }
  }

  /* ---- Reopening ---- */

  /** The value of a system between puts. */
  function Quiet(s: System): Snapshot {
    Snapshot(s.disk, s.published.id, s.writer)
  }

  /**
   After any completed run, opening the same disk finds the published root and `next` in the header, and the chain walk has
   exactly one outcome: free ++ pending in order, on the chain pages in use.
   */
  lemma ReopenAfterRun(
    d: Disk, pageSize: nat, trace: seq<System>, steps: seq<Step>, k: nat, ids: seq<PageId>, entries: seq<PageId>)
    requires Run(d, pageSize, trace, steps) && k < |trace| && trace[k].phase.Idle?
    ensures var s := trace[k];
            && HEADER_PAGE_ID in s.disk && FromBytes(s.disk[HEADER_PAGE_ID]).Decoded?
            && var h := FromBytes(s.disk[HEADER_PAGE_ID]).header;
            && h.pageSize == pageSize && h.rootId == s.published.id && h.nextPageId == s.writer.next
            && h.freeCount == |s.writer.free| + |s.writer.pending| && PagesNeeded(s.writer, pageSize) <= |s.writer.chain|
            && (ChainOnDisk(s.disk, h.freeListHead, ids, entries)
                <==> ids == UsedChain(s.writer, pageSize) && entries == s.writer.free + s.writer.pending)
  {
    hide Folded, MapOf, Good, HeaderNames, Accounted, FromBytes, ChainOnDisk, PagesNeeded, WellFormed, RootStored,
         UsedChain;
    RunInv(d, pageSize, trace, steps, k);
    var s := trace[k];
    QuietIsConsistent(s);
    ReopenRecovers(Quiet(s), s.published, s.leaked, pageSize);
  }

  lemma QuietIsConsistent(s: System)
    requires Inv(s) && s.phase.Idle?
    ensures Consistent(Quiet(s), s.published, s.leaked, s.pageSize)
  {
    hide Folded, MapOf, HeaderNames, Accounted, Persisted, WellFormed, RootStored;
  }

  /* ---- Reader isolation ---- */

  /** Pages a counted reader may be reading: those of the newest tree, and those waiting for readers to leave. */
  ghost predicate Kept(s: System, id: PageId) {
    id in s.writer.pending ||
    id in PagesOf(if s.phase.Chaining? || s.phase.Publishing? then s.phase.after else s.published)
  }

  /** The reader is counted, its snapshot is intact on disk, and no page of it is up for reuse. */
  ghost predicate Safe(s: System, r: Reader, x: Rooted) {
    r in s.readers && Good(x, s.disk, s.pageSize) && forall id :: id in PagesOf(x) ==> Kept(s, id)
  }

  lemma LoadIsSafe(s: System, r: Reader)
    requires Inv(s) && r in s.readers && !InWindow(s)
    ensures Safe(s, r, s.published)
  {
    hide Folded, MapOf, Good, HeaderNames, Persisted, Accounted, AccountedInFlight, PagesOf;
  }

  /** Which page a step overwrites, if any. */
  ghost function Overwrites(s: System, step: Step): Option<PageId>
    requires Enabled(s, step)
  {
    match step
    case WriteImage => Some(s.phase.work.writes[s.phase.done].id)
    case WriteChain => Some(s.phase.todo[0].id)
    case WriteHeader => Some(HEADER_PAGE_ID)
    case _ => None
  }

  /** No write ever goes to a page a safe reader may read. */
  lemma KeptPagesNotOverwritten(s: System, step: Step, id: PageId)
    requires Inv(s) && Enabled(s, step) && Kept(s, id)
    ensures Overwrites(s, step) != Some(id)
  {
    hide Folded, MapOf, Good, HeaderNames, Persisted, Accounted, AccountedInFlight, PagesOf, Written, Flush, Applied,
         ChainWrites, PagesNeeded, Succeeds, OldPagesKept, RootStored, WellFormed;
    match step
    case WriteImage =>
      var p := s.phase;
      WritesApart(s.published, s.writer, p.work.writes, s.leaked);
      NextImage(p.base, p.work.writes, p.done, s.pageSize);
    case WriteChain =>
      StoreState.Parts(s.phase.after, s.writer, s.leaked, id);
    case WriteHeader =>
      StoreState.Parts(s.phase.after, s.writer, s.leaked, id);
    case _ =>
  }

  lemma KeptStaysKept(s: System, step: Step, r: Reader, id: PageId)
    requires Inv(s) && Enabled(s, step) && r in s.readers && Kept(s, id)
    ensures Kept(StoreProtocol.After(s, step), id)
  {
    hide Folded, MapOf, Good, HeaderNames, Persisted, Accounted, AccountedInFlight, PagesOf, Written, Flush, Applied,
         ChainWrites, PagesNeeded, Succeeds, OldPagesKept, RootStored, WellFormed, PutTree, Image, HeaderPage;
    if step == PassGate {
      var p := s.phase;
      if id in PagesOf(s.published) {
        assert id in PagesOf(p.after) + multiset(p.work.freed);
        assert id in p.work.freed ==> id in s.writer.pending + p.work.freed;
      }
    }
  }

  lemma DiskStep(s: System, step: Step) returns (bytes: Bytes)
    requires Enabled(s, step)
    ensures StoreProtocol.After(s, step).disk
         == if Overwrites(s, step).Some? then s.disk[Overwrites(s, step).value := bytes] else s.disk
    ensures StoreProtocol.After(s, step).pageSize == s.pageSize
  {
    hide PutTree, Drawn, Gate, ChainGrown, ChainWrites, HeaderPage, HeaderOf, Image, Reopened, PagesNeeded, RoomFor,
         Shaped, Fresh;
    bytes := [];
    match step
    case WriteImage =>
      var w := s.phase.work.writes[s.phase.done];
      bytes := Image(w.node, w.id, s.pageSize);
    case WriteChain => bytes := s.phase.todo[0].bytes;
    case WriteHeader => bytes := HeaderPage(HeaderOf(s.writer, s.phase.after.id, s.pageSize), s.pageSize);
    case _ =>
  }

  /** A safe reader stays safe through every step but its own exit. */
  lemma SafeStep(s: System, step: Step, r: Reader, x: Rooted)
    requires Inv(s) && Enabled(s, step) && Safe(s, r, x) && step != Exit(r)
    ensures Safe(StoreProtocol.After(s, step), r, x)
    ensures forall id :: id in PagesOf(x) && id in s.disk ==>
              id in StoreProtocol.After(s, step).disk && StoreProtocol.After(s, step).disk[id] == s.disk[id]
  {
    hide Inv, Good, PagesOf, Kept, Enabled, StoreProtocol.After, Overwrites;
    ReadersStep(s, step, r);
    var b := DiskStep(s, step);
    forall id | id in PagesOf(x)
      ensures Overwrites(s, step) != Some(id) && Kept(StoreProtocol.After(s, step), id)
    {
      KeptPagesNotOverwritten(s, step, id);
      KeptStaysKept(s, step, r, id);
    }
    if Overwrites(s, step).Some? {
      OverwriteElsewhere(x, s.disk, Overwrites(s, step).value, b, s.pageSize);
    }
  }

  lemma ReadersStep(s: System, step: Step, r: Reader)
    requires Enabled(s, step) && r in s.readers && step != Exit(r)
    ensures r in StoreProtocol.After(s, step).readers
  {
    hide PutTree, Drawn, Gate, ChainGrown, ChainWrites, HeaderPage, HeaderOf, Image, Reopened, PagesNeeded, RoomFor,
         Shaped;
  }

  lemma {:induction false} SnapshotKept(
    d: Disk, pageSize: nat, trace: seq<System>, steps: seq<Step>, j: nat, k: nat, r: Reader)
    requires Run(d, pageSize, trace, steps) && j < k < |trace|
    requires steps[j] == Load(r) && !InWindow(trace[j])
    requires forall i :: j <= i < k ==> steps[i] != Exit(r)
    ensures Safe(trace[k], r, trace[j].published)
    ensures forall id :: id in PagesOf(trace[j].published) ==>
              id in trace[j].disk && id in trace[k].disk && trace[k].disk[id] == trace[j].disk[id]
    decreases k - j
  {
    hide Inv, Good, PagesOf, Kept, Enabled, StoreProtocol.After, InWindow, Safe, Created;
    var x := trace[j].published;
    RunInv(d, pageSize, trace, steps, j);
    PublishedFacts(trace[j]);
    GoodPages(x, trace[j].disk, pageSize);
    assert Follows(trace[k - 1], steps[k - 1], trace[k - 1 + 1]);
    if k == j + 1 {
      LoaderIsCounted(trace[j], r);
      LoadIsSafe(trace[j], r);
      SafeStep(trace[j], steps[j], r, x);
    } else {
      SnapshotKept(d, pageSize, trace, steps, j, k - 1, r);
      RunInv(d, pageSize, trace, steps, k - 1);
      SafeStep(trace[k - 1], steps[k - 1], r, x);
    }
  }

  /**
   Reader snapshot isolation: a root loaded outside the window is readable, unchanged page for page, for as long as its
   reader stays, whatever commits interleave; and what it reads is the map published when it loaded.
   */
  lemma ReaderIsolation(
    d: Disk, pageSize: nat, trace: seq<System>, steps: seq<Step>, j: nat, k: nat, r: Reader, key: Key)
    requires Run(d, pageSize, trace, steps) && j < k < |trace|
    requires steps[j] == Load(r) && !InWindow(trace[j])
    requires forall i :: j <= i < k ==> steps[i] != Exit(r)
    ensures var x := trace[j].published;
            && Good(x, trace[k].disk, pageSize)
            && (forall id :: id in PagesOf(x) ==>
                  id in trace[j].disk && id in trace[k].disk && trace[k].disk[id] == trace[j].disk[id])
            && Lookup(x.tree, x.height, key) == Get(Folded(trace[j].puts), key)
  {
    hide Inv, Good, PagesOf, Kept, Enabled, StoreProtocol.After, Folded, Lookup, InWindow;
    SnapshotKept(d, pageSize, trace, steps, j, k, r);
    RunInv(d, pageSize, trace, steps, k);
    MapRefinement(d, pageSize, trace, steps, j, key);
  }

  lemma LoaderIsCounted(s: System, r: Reader)
    requires Enabled(s, Load(r))
    ensures r in s.readers
  {
  }

  lemma GoodPages(x: Rooted, d: Disk, pageSize: nat)
    requires Good(x, d, pageSize)
    ensures forall id :: id in PagesOf(x) ==> id in d
  {
    hide Sized, Ordered, PagesBelow;
    StoredPages(d, x.id, x.tree, x.height, pageSize);
  }

  lemma {:induction false} StoredPages(d: Disk, id: PageId, t: Node, h: nat, pageSize: nat)
    requires Shaped(t, h) && Stored(d, id, t, h, pageSize)
    ensures forall x :: x in multiset{id} + PagesBelow(t) ==> x in d
    decreases h
  {
    hide Image, PagesBelow, AllPagesBelow;
    if t.Inner? {
      BelowInner(t);
      forall x | x in PagesBelow(t)
        ensures x in d
      {
        var i := PageInKid(t.ids, t.kids, x);
        StoredPages(d, t.ids[i], t.kids[i], h - 1, pageSize);
      }
    } else {
      NoPagesBelow(t);
    }
  }

  lemma NoPagesBelow(t: Node)
    requires t.Leaf?
    ensures PagesBelow(t) == multiset{}
  {
  }

  lemma {:induction false} PageInKid(ids: seq<PageId>, kids: seq<Node>, x: PageId) returns (i: nat)
    requires |ids| == |kids| && x in multiset(ids) + AllPagesBelow(kids)
    ensures i < |kids| && x in multiset{ids[i]} + PagesBelow(kids[i])
    decreases |kids|
  {
    hide PagesBelow;
    if x == ids[0] || x in PagesBelow(kids[0]) {
      i := 0;
    } else {
      assert ids == [ids[0]] + ids[1..];
      i := PageInKid(ids[1..], kids[1..], x);
      i := i + 1;
    }
  }
}
