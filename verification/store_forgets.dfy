/**
 A run in which reopening forgets a chain page: the chain never shrinks while the store is open, and the list it was
 grown for can get shorter when a put splits pages.
 */
module StoreForgets {
  import opened PageFormat
  import opened SplitPoints
  import opened KeySearch
  import opened TreeNodes
  import opened TreeInsert
  import opened TreeStorage
  import opened HeaderPages
  import opened StoreSpec
  import opened StoreState
  import opened StoreProtocol
  import opened StoreSafety
  import opened StoreRuns
  import opened StoreWindow

  /** Nine bytes on a page: four such entries fit the smallest page, five do not. */
  function Small(n: nat): Entry
    requires n <= 9
  {
    Entry([9 - n], [0, 0, 0, 0])
  }

  function Smalls(n: nat): seq<Entry>
    requires n <= 9
  {
    if n == 0 then [] else [Small(n)] + Smalls(n - 1)
  }

  lemma {:induction false} SmallsSize(n: nat)
    requires n <= 9
    ensures EntriesSize(Smalls(n)) == 9 * n
  {
    if n > 0 {
      SmallsSize(n - 1);
      EntriesSizeConcat([Small(n)], Smalls(n - 1));
      assert [Small(n)][..0] == [];
    }
  }

  /** Each is smaller than those before it, so it goes to the front. */
  lemma NextSmall(n: nat)
    requires n < 9
    ensures Upserted(Smalls(n), Small(n + 1)) == Smalls(n + 1)
  {
    var es := Smalls(n);
    assert n > 0 ==> es[0] == Small(n);
    assert Rank(es, Small(n + 1).key) == 0;
  }

  /** A put that fits its leaf: one page, from the end of the file when nothing is free. */
  lemma LeafPutTree(root: Rooted, n: nat, w: Writer)
    requires n < 4 && root == Rooted(root.id, Leaf(Smalls(n)), 0) && w.free == []
    ensures PutTree(root, Small(n + 1), MIN_PAGE_SIZE, Fresh(w))
         == (Rooted(w.next, Leaf(Smalls(n + 1)), 0),
             Work([], w.next + 1, [PageWrite(w.next, Leaf(Smalls(n + 1)))], [root.id]))
  {
    hide Upserted, EntriesSize, LeafCut;
    NextSmall(n);
    SmallsSize(n + 1);
    var w1 := Orphaned(Fresh(w), root.id);
    hide Smalls;
    assert w1.freed == [root.id];
    assert w1 == Work([], w.next, [], [root.id]) && NextId(w1) == w.next;
    assert Wrote(w1, Leaf(Smalls(n + 1))).writes == [PageWrite(w.next, Leaf(Smalls(n + 1)))];
    assert InsertLeaf(Smalls(n), Small(n + 1), MIN_PAGE_SIZE) == Single(Leaf(Smalls(n + 1)));
  }

  /** The fifth entry splits the leaf: two leaves and a new root. */
  lemma SplitPutTree(root: Rooted, w: Writer)
    requires root == Rooted(root.id, Leaf(Smalls(4)), 0)
    ensures |PutTree(root, Small(5), MIN_PAGE_SIZE, Fresh(w)).1.writes| == 3
  {
    hide Upserted, LeafCut;
    NextSmall(4);
    SmallsSize(5);
    assert InsertLeaf(Smalls(4), Small(5), MIN_PAGE_SIZE).Split?;
  }

  /** Between puts, with a single leaf of the first n entries, and so many pages free, pending and in the chain. */
  ghost predicate LeafStore(s: System, n: nat, free: nat, pending: nat, chain: nat, bound: nat) {
    && Inv(s) && s.pageSize == MIN_PAGE_SIZE && s.phase.Idle? && n <= 9
    && s.published == Rooted(s.published.id, Leaf(Smalls(n)), 0)
    && |s.writer.free| == free && |s.writer.pending| == pending && |s.writer.chain| == chain && s.writer.next <= bound
  }

  lemma ThreePerPage(w: Writer)
    ensures PagesNeeded(w, MIN_PAGE_SIZE) == DivCeil(|Payload(w)|, 3)
  {
    ChunkTotal(Payload(w), 3);
  }

  lemma CanPutSmall(s: System, n: nat, free: nat, pending: nat, chain: nat, bound: nat)
    requires n < 9 && LeafStore(s, n, free, pending, chain, bound) && bound <= 100
    ensures Enabled(s, Begin(Small(n + 1)))
  {
    hide Inv;
    CanPut(s, Small(n + 1));
  }

  /** A put into the leaf, with nothing free: the orphaned leaf joins the pending pages, or all of them become free. */
  lemma LeafPut(s: System, n: nat, pending: nat, chain: nat, bound: nat) returns (steps: seq<Step>, s': System)
    requires n < 4 && LeafStore(s, n, 0, pending, chain, bound) && bound <= 80 && pending <= 3 && chain <= 2
    ensures Leads(s, steps, s') && s'.readers == s.readers
    ensures var needed, quiescent := DivCeil(pending + 1, 3), s.readers == map[];
            LeafStore(s', n + 1, if quiescent then pending + 1 else 0, if quiescent then 0 else pending + 1,
                      if chain < needed then needed else chain, bound + 3)
  {
    hide Inv, PutTree, Enabled, StoreProtocol.After, Leads, Flush, Applied, ChainWrites, HeaderPage, HeaderOf, GrownChain,
         PagesNeeded, Smalls;
    CanPutSmall(s, n, 0, pending, chain, bound);
    steps, s' := UninterruptedPut(s, Small(n + 1));
    LeadsInv(s, steps, s');
    LeafPutTree(s.published, n, s.writer);
    var g := Gate(s.writer.(next := s.writer.next + 1), [s.published.id], s.readers == map[]);
    ThreePerPage(g);
    GrownKeeps(g, PagesNeeded(g, MIN_PAGE_SIZE));
    assert |Payload(g)| == pending + 1;
    assert s'.writer == GrownChain(g, PagesNeeded(g, MIN_PAGE_SIZE));
  }

  /** The put that splits draws three pages and frees one, so the list shrinks while the chain does not. */
  lemma SplitPut(s: System, bound: nat) returns (steps: seq<Step>, s': System)
    requires LeafStore(s, 4, 4, 0, 2, bound) && bound <= 80 && s.readers == map[]
    ensures Leads(s, steps, s') && Inv(s') && s'.phase.Idle? && s'.pageSize == MIN_PAGE_SIZE && s'.readers == map[]
    ensures |s'.writer.chain| == 2 && PagesNeeded(s'.writer, MIN_PAGE_SIZE) == 1
  {
    hide Inv, PutTree, Enabled, StoreProtocol.After, Leads, Flush, Applied, ChainWrites, HeaderPage, HeaderOf, GrownChain,
         PagesNeeded, Smalls;
    CanPutSmall(s, 4, 4, 0, 2, bound);
    steps, s' := UninterruptedPut(s, Small(5));
    LeadsInv(s, steps, s');
    SplitPutTree(s.published, s.writer);
    PutDraws(s.published, Small(5), MIN_PAGE_SIZE, Fresh(s.writer));
    var work := PutTree(s.published, Small(5), MIN_PAGE_SIZE, Fresh(s.writer)).1;
    var g := Gate(Drawn(s.writer, work), work.freed, true);
    ThreePerPage(g);
    ThreePerPage(s'.writer);
    GrownKeeps(g, PagesNeeded(g, MIN_PAGE_SIZE));
    assert |Payload(g)| == 2;
    assert s'.writer == GrownChain(g, PagesNeeded(g, MIN_PAGE_SIZE));
  }

  /** Four puts, the first three under a reader, that leave four free pages on two chain pages. */
  lemma FourPuts(s0: System) returns (steps: seq<Step>, s: System)
    requires LeafStore(s0, 0, 0, 0, 0, 2) && s0.readers == map[]
    ensures Leads(s0, steps, s) && LeafStore(s, 4, 4, 0, 2, 20) && s.readers == map[]
  {
    hide LeafStore, Leads, Enabled, StoreProtocol.After;
    var s1, s5;
    s1 := ReaderStep(s0, Enter(0), 0, 0, 0, 2);
    var a, s2 := LeafPut(s1, 0, 0, 0, 2);
    var b, s3 := LeafPut(s2, 1, 1, 1, 5);
    var c, s4 := LeafPut(s3, 2, 2, 1, 8);
    s5 := ReaderStep(s4, Exit(0), 3, 3, 1, 11);
    var f;
    f, s := LeafPut(s5, 3, 3, 1, 11);
    LeadsOn(s0, [Enter(0)], s1, a, s2);
    LeadsOn(s0, [Enter(0)] + a, s2, b, s3);
    LeadsOn(s0, [Enter(0)] + a + b, s3, c, s4);
    LeadsOn(s0, [Enter(0)] + a + b + c, s4, [Exit(0)], s5);
    LeadsOn(s0, [Enter(0)] + a + b + c + [Exit(0)], s5, f, s);
    steps := [Enter(0)] + a + b + c + [Exit(0)] + f;
    Loosely(s, 4, 4, 0, 2, 14, 20);
  }

  lemma Loosely(s: System, n: nat, free: nat, pending: nat, chain: nat, bound: nat, bound': nat)
    requires LeafStore(s, n, free, pending, chain, bound) && bound <= bound'
    ensures LeafStore(s, n, free, pending, chain, bound')
  {
    hide Inv;
  }

  lemma ReaderStep(s: System, step: Step, n: nat, pending: nat, chain: nat, bound: nat) returns (s': System)
    requires LeafStore(s, n, 0, pending, chain, bound)
    requires (step == Enter(0) && s.readers == map[]) || (step == Exit(0) && s.readers.Keys == {0})
    ensures Leads(s, [step], s') && LeafStore(s', n, 0, pending, chain, bound)
    ensures if step == Enter(0) then s'.readers.Keys == {0} else s'.readers == map[]
  {
    hide Inv, Smalls;
    s' := StoreProtocol.After(s, step);
    OneStep(s, step);
    StepKeepsInv(s, step);
  }

  /** Some run of a fresh store with the smallest pages ends with a reopening that forgets a chain page for good. */
  lemma ReopeningForgets(d: Disk) returns (trace: seq<System>, steps: seq<Step>)
    ensures Run(d, MIN_PAGE_SIZE, trace, steps) && |steps| > 0 && steps[|steps| - 1] == Reopen
    ensures var s, s' := trace[|steps| - 1], trace[|steps|];
            && PagesNeeded(s.writer, MIN_PAGE_SIZE) == 1 && |s.writer.chain| == 2
            && s'.writer.chain == s.writer.chain[..1] && s'.leaked == s.leaked + multiset{s.writer.chain[1]}
  {
    hide Inv, LeafStore, Leads, Enabled, StoreProtocol.After, Created, PagesNeeded;
    var s0 := Created(d, MIN_PAGE_SIZE);
    FreshLeafStore(d);
    var a, s1 := FourPuts(s0);
    var b, s2 := SplitPut(s1, 20);
    var s3 := ForgetStep(s2);
    trace := RunOn(d, MIN_PAGE_SIZE, [s0], [], a, s1);
    trace := RunOn(d, MIN_PAGE_SIZE, trace, [] + a, b, s2);
    RunGrows(d, MIN_PAGE_SIZE, trace, [] + a + b, Reopen, s3);
    trace, steps := trace + [s3], [] + a + b + [Reopen];
  }

  lemma FreshLeafStore(d: Disk)
    ensures LeafStore(Created(d, MIN_PAGE_SIZE), 0, 0, 0, 0, 2) && Created(d, MIN_PAGE_SIZE).readers == map[]
  {
    hide Inv, Image, HeaderPage;
    CreatedInv(d, MIN_PAGE_SIZE);
  }

  lemma ForgetStep(s: System) returns (s': System)
    requires s.phase.Idle? && s.pageSize == MIN_PAGE_SIZE && s.readers == map[]
    requires |s.writer.chain| == 2 && PagesNeeded(s.writer, MIN_PAGE_SIZE) == 1
    ensures Follows(s, Reopen, s') && s'.writer.chain == s.writer.chain[..1]
    ensures s'.leaked == s.leaked + multiset{s.writer.chain[1]}
  {
    hide PagesNeeded;
    s' := StoreProtocol.After(s, Reopen);
    assert s.writer.chain[1..] == [s.writer.chain[1]];
  }
}
