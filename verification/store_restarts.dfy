/**
 Runs that go on past crashes: the process may stop at any moment at which the disk still opens consistently
 (`StoreRecovery.CrashRecovery`), and the next store is the one the disk opens to. Readers are gone with the process; nothing
 published is lost, and a put in progress has happened or not.
 */
module StoreRestarts {
  import opened Wrappers
  import opened ByteStrings
  import opened PageFormat
  import opened SplitPoints
  import opened HeaderPages
  import opened TreeNodes
  import opened TreeInsert
  import opened TreeStock
  import opened TreeStorage
  import opened StoreSpec
  import opened StoreState
  import opened StorePut
  import opened StoreProtocol
  import opened StoreSafety
  import opened StoreRuns
  import opened StoreRecovery

  datatype Event = Take(step: Step) | Crash

  /** The lists the header and the chain on disk describe: those of the last commit whose header was written. */
  function Lists(s: System): Writer {
    if s.phase.Flushing? || s.phase.Chaining? then s.phase.saved else s.writer
  }

  /** The moments at which stopping is sound. */
  ghost predicate Stoppable(s: System) {
    && s.pageSize >= MIN_PAGE_SIZE && PagesNeeded(Lists(s), s.pageSize) <= |Lists(s).chain|
    && (s.phase.Chaining? ==> PagesNeeded(s.writer, s.pageSize) <= |s.writer.chain| && StillWhole(s))
  }

  /** The store that opens after a crash. */
  ghost function Restarted(s: System): System
    requires Stoppable(s)
  {
    var root, w := HeaderTree(s), Lists(s);
    s.(published := root, writer := Reopened(Snapshot(s.disk, root.id, w), s.pageSize).writer, phase := Idle, readers := map[],
       puts := if s.phase.Publishing? then s.puts + [s.phase.entry] else s.puts,
       leaked := s.leaked + multiset(w.chain[PagesNeeded(w, s.pageSize)..]))
  }

  ghost predicate Happens(s: System, e: Event, s': System) {
    match e
    case Take(step) => Follows(s, step, s')
    case Crash => Stoppable(s) && s' == Restarted(s)
  }

  ghost predicate CrashRun(d: Disk, pageSize: nat, trace: seq<System>, events: seq<Event>) {
    && PageSizeOk(pageSize) && |trace| == |events| + 1 && trace[0] == Created(d, pageSize)
    && forall k: nat :: k < |events| ==> Happens(trace[k], events[k], trace[k + 1])
  }

  /* ---- A crash keeps the invariant ---- */

  /** What is on disk is the header's tree, and lists that account for every page. */
  ghost predicate DiskDescribes(s: System) {
    && s.pageSize >= MIN_PAGE_SIZE && Good(HeaderTree(s), s.disk, s.pageSize) && Lists(s).next < U64_RANGE
    && Accounted(HeaderTree(s), Lists(s), s.leaked) && Persisted(s.disk, HeaderTree(s).id, Lists(s), s.pageSize)
  }

  lemma StoppedDisk(s: System)
    requires Inv(s) && ProgressOk(s) && (s.phase.Chaining? ==> Stoppable(s))
    ensures DiskDescribes(s)
  {
    hide Good, Accounted, AccountedInFlight, Persisted, HeaderNames, Folded, MapOf, Succeeds, OldPagesKept, RootStored,
         WellFormed, Flush, Written, PagesOf, StaleOk, PagesNeeded;
    if s.phase.Chaining? {
      hide Inv, ProgressOk;
      MidChainFacts(s);
      WholePersisted(s);
      SavedFacts(s);
    }
  }

  lemma SavedFacts(s: System)
    requires Inv(s) && ProgressOk(s) && s.phase.Chaining?
    ensures Good(s.published, s.disk, s.pageSize) && s.phase.saved.next < U64_RANGE
    ensures Accounted(s.published, s.phase.saved, s.leaked)
  {
    hide Good, Accounted, Persisted, HeaderNames, Folded, MapOf, Succeeds, OldPagesKept, RootStored, WellFormed,
         PagesOf, StaleOk, PagesNeeded, PartlyChained, Applied, ChainWrites;
  }

  lemma StoppableUnlessChaining(s: System)
    requires Inv(s) && ProgressOk(s) && !s.phase.Chaining?
    ensures Stoppable(s)
  {
    StoppedDisk(s);
    hide Inv, ProgressOk, Good, Accounted, ChainOnDisk, HeaderPage;
  }

  lemma RestartMap(s: System)
    requires Inv(s) && Stoppable(s)
    ensures MapOf(Entries(HeaderTree(s).tree)) == Folded(Restarted(s).puts)
    ensures PageSizeOk(s.pageSize) && HeaderNames(s.disk, HeaderTree(s).id, s.pageSize)
  {
    hide Good, Accounted, AccountedInFlight, Persisted, HeaderNames, Folded, MapOf, OldPagesKept, RootStored,
         WellFormed, Flush, Written, PagesOf, PagesNeeded, Applied, ChainWrites, Reopened, StillWhole;
    if s.phase.Publishing? {
      FoldedNext(s.puts, s.published, s.phase.entry, s.phase.after);
    }
  }

  /** The store after a crash is as good as any other. */
  lemma RestartKeepsInv(s: System)
    requires Inv(s) && ProgressOk(s) && Stoppable(s)
    ensures Inv(Restarted(s)) && ProgressOk(Restarted(s))
  {
    hide Good, Accounted, Persisted, HeaderNames, Folded, MapOf, Reopened, StaleOk, PagesNeeded, ProgressOk, StillWhole;
    StoppedDisk(s);
    RestartMap(s);
    var w := Lists(s);
    assert DiskDescribes(s);
    ReopenedLists(s.disk, HeaderTree(s), w, s.leaked, s.pageSize);
    NoneStale(s.disk, HeaderTree(s), w, Restarted(s).leaked, s.pageSize);
    RestProgress(Restarted(s));
  }

  lemma RestProgress(s: System)
    requires s.pageSize >= MIN_PAGE_SIZE && s.phase.Idle? && StaleOk(s.disk, s.writer, s.leaked, s.pageSize)
    ensures ProgressOk(s)
  {
  }

  /** And it is what opening the disk gives. */
  lemma RestartIsOpening(s: System)
    requires Inv(s) && ProgressOk(s) && Stoppable(s)
    ensures OpensConsistent(s.disk, HeaderTree(s), s.pageSize, Quiet(Restarted(s)), Restarted(s).leaked)
  {
    hide Inv, ProgressOk, Accounted, Persisted, FromBytes, ChainOnDisk, WellFormed, RootStored, StillWhole, HeaderPage;
    StoppedDisk(s);
    AtLeastMinimum(s);
    hide Good, PagesNeeded, UsedChain;
    OpeningOf(s.disk, HeaderTree(s), Lists(s), s.leaked, s.pageSize);
  }

  lemma OpeningOf(d: Disk, root: Rooted, w: Writer, leaked: multiset<PageId>, pageSize: nat)
    requires PageSizeOk(pageSize) && Good(root, d, pageSize) && w.next < U64_RANGE
    requires Accounted(root, w, leaked) && Persisted(d, root.id, w, pageSize)
    ensures OpensConsistent(d, root, pageSize, Reopened(Snapshot(d, root.id, w), pageSize),
                            leaked + multiset(w.chain[PagesNeeded(w, pageSize)..]))
  {
    hide Accounted, WellFormed, RootStored, ChainOnDisk, FromBytes, PagesNeeded, UsedChain, Held, ChainWrites;
    ReopenRecovers(Snapshot(d, root.id, w), root, leaked, pageSize);
  }

  /* ---- Over every run ---- */

  lemma EventKeepsInv(s: System, e: Event, s': System)
    requires Inv(s) && ProgressOk(s) && Happens(s, e, s')
    ensures Inv(s') && ProgressOk(s') && s'.pageSize == s.pageSize
  {
    hide Inv, ProgressOk, Enabled, StoreProtocol.After, Stoppable;
    match e
    case Take(step) =>
      StepKeepsInv(s, step);
      ProgressStep(s, step);
      PageSizeStays(s, step);
    case Crash => RestartKeepsInv(s);
  }

  lemma {:induction false} CrashRunInv(d: Disk, pageSize: nat, trace: seq<System>, events: seq<Event>, k: nat)
    requires CrashRun(d, pageSize, trace, events) && k < |trace|
    ensures Inv(trace[k]) && ProgressOk(trace[k]) && trace[k].pageSize == pageSize
    decreases k
  {
    hide Inv, ProgressOk, Happens, Created;
    if k == 0 {
      CreatedInv(d, pageSize);
      CreatedProgress(d, pageSize);
      CreatedPageSize(d, pageSize);
    } else {
      CrashRunInv(d, pageSize, trace, events, k - 1);
      assert Happens(trace[k - 1], events[k - 1], trace[k - 1 + 1]);
      EventKeepsInv(trace[k - 1], events[k - 1], trace[k]);
    }
  }

  lemma CreatedPageSize(d: Disk, pageSize: nat)
    requires pageSize >= MIN_PAGE_SIZE
    ensures Created(d, pageSize).pageSize == pageSize
  {
  }

  /** At every moment, after any number of crashes, looking up a key is looking up the published puts. */
  lemma MapAcrossCrashes(d: Disk, pageSize: nat, trace: seq<System>, events: seq<Event>, k: nat, key: Key)
    requires CrashRun(d, pageSize, trace, events) && k < |trace|
    ensures var t := trace[k].published;
            && WellFormed(t.tree, t.height, pageSize)
            && Lookup(t.tree, t.height, key) == Get(Folded(trace[k].puts), key)
  {
    hide CrashRun, Inv, ProgressOk, Folded, MapOf, HeaderNames, Lookup, RootStored, Sized;
    CrashRunInv(d, pageSize, trace, events, k);
    PublishedFacts(trace[k]);
    var t := trace[k].published;
    LookupIsMapLookup(t.tree, t.height, None, None, key);
  }

  /** No page is lost or used twice, after any number of crashes. */
  lemma PagesAcrossCrashes(d: Disk, pageSize: nat, trace: seq<System>, events: seq<Event>, k: nat, id: PageId)
    requires CrashRun(d, pageSize, trace, events) && k < |trace| && trace[k].phase.Idle?
    ensures var s := trace[k];
            (if id == HEADER_PAGE_ID then 1 else 0) + PagesOf(s.published)[id] + multiset(s.writer.free)[id]
              + multiset(s.writer.pending)[id] + multiset(s.writer.chain)[id] + s.leaked[id]
            == if id < s.writer.next then 1 else 0
  {
    hide CrashRun, ProgressOk, Folded, MapOf, Good, HeaderNames, Persisted, Accounted;
    CrashRunInv(d, pageSize, trace, events, k);
    OnePartEach(trace[k].published, trace[k].writer, trace[k].leaked, id);
  }

  /** The header always names an intact tree, and stopping is sound exactly where `CrashRecovery` says. */
  lemma RecoveryAcrossCrashes(d: Disk, pageSize: nat, trace: seq<System>, events: seq<Event>, k: nat)
    requires CrashRun(d, pageSize, trace, events) && k < |trace|
    ensures var s := trace[k];
            && HeaderNames(s.disk, HeaderTree(s).id, pageSize)
            && (Stoppable(s) <==> SoundlyOpens(s.disk, HeaderTree(s), pageSize))
            && (Stoppable(s) ==> OpensConsistent(s.disk, HeaderTree(s), pageSize, Quiet(Restarted(s)), Restarted(s).leaked))
  {
    hide CrashRun, Inv, ProgressOk, HeaderNames, SoundlyOpens, Recovers, OpensConsistent, Quiet, Restarted, StillWhole;
    CrashRunInv(d, pageSize, trace, events, k);
    var s := trace[k];
    PublishedFacts(s);
    AtLeastMinimum(s);
    if s.phase.Chaining? {
      ChainingRecovers(s);
      ChainingStops(s);
      if StillWhole(s) {
        RecoversSoundly(s.disk, HeaderTree(s), pageSize);
      }
    } else {
      StoppableUnlessChaining(s);
      OtherRecovers(s);
      RecoversSoundly(s.disk, HeaderTree(s), pageSize);
    }
    if Stoppable(s) {
      RestartIsOpening(s);
    }
  }

  lemma ChainingStops(s: System)
    requires Inv(s) && ProgressOk(s) && s.phase.Chaining?
    ensures PagesNeeded(s.writer, s.pageSize) <= |s.writer.chain| && (Stoppable(s) <==> StillWhole(s))
  {
    hide Inv, ProgressOk, StillWhole, PagesNeeded, Held, ChainWrites, FromBytes, HeaderPage, HeaderOf, Applied,
         Distinct, RealIds;
    MidChainFacts(s);
  }

  lemma EventKeepsPuts(s: System, e: Event, s': System)
    requires Happens(s, e, s')
    ensures s.puts <= s'.puts && |s'.puts| <= |s.puts| + 1
    ensures e == Crash ==> s'.puts == s.puts || (s.phase.Publishing? && s'.puts == s.puts + [s.phase.entry])
  {
    hide Enabled, StoreProtocol.After, Stoppable, StillWhole;
    if e.Take? {
      PutsGrow(s, e.step);
    }
  }

  /** Nothing published is ever lost, and a crash leaves the put in progress out, or completes it if its header was written. */
  lemma {:induction false} PutsAreDurable(d: Disk, pageSize: nat, trace: seq<System>, events: seq<Event>, j: nat, k: nat)
    requires CrashRun(d, pageSize, trace, events) && j <= k < |trace|
    ensures trace[j].puts <= trace[k].puts
    ensures k < |events| && events[k] == Crash ==>
              && trace[k + 1].phase.Idle? && trace[k + 1].readers == map[]
              && trace[k + 1].puts == trace[k].puts + if trace[k].phase.Publishing? then [trace[k].phase.entry] else []
    decreases k - j
  {
    hide Happens, Created;
    if j < k {
      PutsAreDurable(d, pageSize, trace, events, j, k - 1);
      assert Happens(trace[k - 1], events[k - 1], trace[k - 1 + 1]);
      EventKeepsPuts(trace[k - 1], events[k - 1], trace[k]);
    }
    if k < |events| && events[k] == Crash {
      assert Happens(trace[k], events[k], trace[k + 1]);
      AfterCrash(trace[k], trace[k + 1]);
    }
  }

  lemma AfterCrash(s: System, s': System)
    requires Happens(s, Crash, s')
    ensures s'.phase.Idle? && s'.readers == map[]
    ensures s'.puts == s.puts + if s.phase.Publishing? then [s.phase.entry] else []
  {
    hide Stoppable, StillWhole, Reopened;
  }
}
