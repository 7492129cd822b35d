/**
 The whole store as a value, what makes it consistent, and a put as a function on it.
 Page accounting is one equation: every id below `next` is the header, a page of the tree,
 free, pending, a chain page, or leaked by an earlier reopening, and only one of these.
 */
module StoreState {
  import opened ByteStrings
  import opened PageFormat
  import opened SplitPoints
  import opened HeaderPages
  import opened TreeNodes
  import opened TreeInsert
  import opened TreeStock
  import opened TreeStorage
  import opened StoreSpec

  ghost predicate Accounted(root: Rooted, w: Writer, leaked: multiset<PageId>) {
    multiset{HEADER_PAGE_ID} + PagesOf(root) + multiset(w.free) + multiset(w.pending) + multiset(w.chain) + leaked
    == AllIds(w.next)
  }

  /** The same equation between an allocation and the gate: what was written is not in the published tree. */
  ghost predicate AccountedInFlight(root: Rooted, w: Writer, written: multiset<PageId>, leaked: multiset<PageId>) {
    multiset{HEADER_PAGE_ID} + PagesOf(root) + (multiset(w.free) + written)
      + multiset(w.pending) + multiset(w.chain) + leaked
    == AllIds(w.next)
  }

  /** The header and the free-list chain describe this root and these lists. */
  ghost predicate Persisted(d: Disk, root: PageId, w: Writer, pageSize: nat)
    requires pageSize >= MIN_PAGE_SIZE
  {
    && PagesNeeded(w, pageSize) <= |w.chain|
    && HEADER_PAGE_ID in d && d[HEADER_PAGE_ID] == HeaderPage(HeaderOf(w, root, pageSize), pageSize)
    && Held(d, ChainWrites(w, pageSize))
    && ChainOnDisk(d, HeadOf(UsedChain(w, pageSize)), UsedChain(w, pageSize), Payload(w))
  }

  /** Enough unused 64-bit page ids for one put: its pages and the chain pages they may need. */
  predicate RoomFor(w: Writer, height: nat) {
    2 * (w.next + 2 * height + 3) < U64_RANGE
  }

  ghost predicate PageSizeOk(pageSize: nat) {
    MIN_PAGE_SIZE <= pageSize <= MAX_PAGE_SIZE
  }

  /* ---- From the equation to disjointness ---- */

  lemma OnceEach(whole: multiset<PageId>, n: nat, id: PageId)
    requires whole == AllIds(n)
    ensures whole[id] <= 1 && (id in whole ==> id < n)
  {
    AllIdsOnce(n, id);
  }

  /** In an accounted store no id plays two parts and every id is below `next`. */
  lemma Parts(root: Rooted, w: Writer, leaked: multiset<PageId>, id: PageId)
    requires Accounted(root, w, leaked)
    ensures (if id == HEADER_PAGE_ID then 1 else 0) + PagesOf(root)[id] + multiset(w.free)[id] + multiset(w.pending)[id]
            + multiset(w.chain)[id] + leaked[id] <= 1
    ensures id in PagesOf(root) || id in w.free || id in w.pending || id in w.chain ==> 0 < id < w.next
  {
    hide AllIds, PagesOf;
    var all := multiset{HEADER_PAGE_ID} + PagesOf(root) + multiset(w.free) + multiset(w.pending) + multiset(w.chain) + leaked;
    OnceEach(all, w.next, id);
    assert all[id] == multiset{HEADER_PAGE_ID}[id] + PagesOf(root)[id] + multiset(w.free)[id] + multiset(w.pending)[id]
                      + multiset(w.chain)[id] + leaked[id];
  }

  /** Exactly: every id below `next` plays one part, and no other id plays any. */
  lemma OnePartEach(root: Rooted, w: Writer, leaked: multiset<PageId>, id: PageId)
    requires Accounted(root, w, leaked)
    ensures (if id == HEADER_PAGE_ID then 1 else 0) + PagesOf(root)[id] + multiset(w.free)[id] + multiset(w.pending)[id]
              + multiset(w.chain)[id] + leaked[id]
            == if id < w.next then 1 else 0
  {
    hide AllIds, PagesOf;
    AllIdsOnce(w.next, id);
    var all := multiset{HEADER_PAGE_ID} + PagesOf(root) + multiset(w.free) + multiset(w.pending) + multiset(w.chain) + leaked;
    assert all[id] == multiset{HEADER_PAGE_ID}[id] + PagesOf(root)[id] + multiset(w.free)[id] + multiset(w.pending)[id]
                      + multiset(w.chain)[id] + leaked[id];
  }

  lemma PartsInFlight(root: Rooted, w: Writer, written: multiset<PageId>, leaked: multiset<PageId>, id: PageId)
    requires AccountedInFlight(root, w, written, leaked)
    ensures (if id == HEADER_PAGE_ID then 1 else 0) + PagesOf(root)[id] + multiset(w.free)[id] + written[id]
            + multiset(w.pending)[id] + multiset(w.chain)[id] + leaked[id] <= 1
    ensures id in PagesOf(root) || id in w.free || id in w.pending || id in w.chain || id in written ==> 0 < id < w.next
  {
    hide AllIds, PagesOf;
    var all := multiset{HEADER_PAGE_ID} + PagesOf(root) + (multiset(w.free) + written) + multiset(w.pending)
               + multiset(w.chain) + leaked;
    OnceEach(all, w.next, id);
    assert all[id] == multiset{HEADER_PAGE_ID}[id] + PagesOf(root)[id] + multiset(w.free)[id] + written[id]
                      + multiset(w.pending)[id] + multiset(w.chain)[id] + leaked[id];
  }

  /** Counting a page list once each is the same as listing distinct pages. */
  lemma {:induction false} OnceIsDistinct(ids: seq<PageId>)
    requires EachOnce(multiset(ids))
    ensures Distinct(ids)
    decreases |ids|
  {
    if ids != [] {
      var front, last := ids[..|ids| - 1], ids[|ids| - 1];
      assert ids == front + [last];
      assert multiset(ids) == multiset(front) + multiset{last};
      assert EachOnce(multiset(front)) by {
        assert forall id :: multiset(front)[id] <= multiset(ids)[id];
      }
      OnceIsDistinct(front);
      assert multiset(ids)[last] == multiset(front)[last] + 1;
      assert last !in front;
      forall i, j | 0 <= i < j < |ids|
        ensures ids[i] != ids[j]
      {
        assert ids[i] == front[i];
        if j < |front| {
          assert ids[j] == front[j];
        }
      }
    }
  }

  /** The chain's pages are real, distinct, and not the header's or the tree's. */
  lemma ChainApart(root: Rooted, w: Writer, leaked: multiset<PageId>)
    requires Accounted(root, w, leaked) && w.next <= U64_RANGE
    ensures Distinct(w.chain) && RealIds(w.chain) && RealIds(Payload(w)) && Distinct(Payload(w))
    ensures forall id :: id in w.chain ==> id !in PagesOf(root) && id != HEADER_PAGE_ID
    ensures HEADER_PAGE_ID !in PagesOf(root)
  {
    hide Accounted, PagesOf;
    forall id: PageId
      ensures multiset(w.chain)[id] <= 1 && multiset(Payload(w))[id] <= 1
      ensures id in w.chain ==> id !in PagesOf(root) && 0 < id < w.next
      ensures id in Payload(w) ==> 0 < id < w.next
    {
      Parts(root, w, leaked, id);
      assert multiset(Payload(w)) == multiset(w.free) + multiset(w.pending);
    }
    OnceIsDistinct(w.chain);
    OnceIsDistinct(Payload(w));
    Parts(root, w, leaked, HEADER_PAGE_ID);
  }

  /* ---- Beginning a put ---- */

  /** The transaction's starting point. */
  function Fresh(w: Writer): Work {
    Work(w.free, w.next, [], [])
  }

  /** The writer after the transaction's allocations. */
  function Drawn(w: Writer, work: Work): Writer {
    w.(free := work.free, next := work.next)
  }

  lemma BeginPut(root: Rooted, w: Writer, e: Entry, pageSize: nat, leaked: multiset<PageId>)
    requires Shaped(root.tree, root.height) && Accounted(root, w, leaked)
    ensures var (after, work) := PutTree(root, e, pageSize, Fresh(w));
            && AccountedInFlight(root, Drawn(w, work), Written(work.writes), leaked)
            && PagesOf(after) + multiset(work.freed) == PagesOf(root) + Written(work.writes)
            && w.next <= work.next
  {
    hide PutTree, PagesOf, AllIds;
    PutConserves(root, e, pageSize, Fresh(w));
    var (after, work) := PutTree(root, e, pageSize, Fresh(w));
    NothingWritten();
    DrawnBalance(multiset{HEADER_PAGE_ID} + PagesOf(root), multiset(w.free), multiset(w.pending) + multiset(w.chain) + leaked,
                 AllIds(w.next), multiset(work.free) + Written(work.writes), AllIds(work.next));
    assert Written(Fresh(w).writes) == multiset{} && multiset(Fresh(w).freed) == multiset{};
    assert PagesOf(after) + multiset(work.freed) + multiset{} == PagesOf(after) + multiset(work.freed);
    assert PagesOf(root) + multiset{} == PagesOf(root);
  }

  lemma NothingWritten()
    ensures Written([]) == multiset{}
  {
  }

  lemma DrawnBalance(a: multiset<PageId>, free: multiset<PageId>, b: multiset<PageId>, all: multiset<PageId>,
                     pool: multiset<PageId>, all': multiset<PageId>)
    requires a + free + b == all && pool + all == free + all'
    ensures a + pool + b == all'
  {
    forall x: PageId
      ensures (a + pool + b)[x] == all'[x]
    {
      assert (a + free + b)[x] == all[x] && (pool + all)[x] == (free + all')[x];
    }
  }

  /** A put writes each page once, and none that anyone can still reach. */
  lemma WritesApart(root: Rooted, w: Writer, writes: seq<PageWrite>, leaked: multiset<PageId>)
    requires AccountedInFlight(root, w, Written(writes), leaked)
    ensures EachOnce(Written(writes)) && Written(writes) !! PagesOf(root) && Written(writes) !! multiset(w.pending)
    ensures Written(writes) !! multiset(w.chain) && HEADER_PAGE_ID !in Written(writes)
  {
    hide AccountedInFlight, PagesOf, Written;
    forall id: PageId
      ensures Written(writes)[id] <= 1
      ensures id in Written(writes) ==>
                id !in PagesOf(root) && id !in w.pending && id !in w.chain && id != HEADER_PAGE_ID
    {
      PartsInFlight(root, w, Written(writes), leaked, id);
    }
  }

  /* ---- The gate and the chain ---- */

  /** After the gate the new tree is accounted for, whether or not the orphans were promoted. */
  lemma GateAccounts(root: Rooted, after: Rooted, w: Writer, freed: seq<PageId>, written: multiset<PageId>,
                     quiescent: bool, leaked: multiset<PageId>)
    requires AccountedInFlight(root, w, written, leaked)
    requires PagesOf(after) + multiset(freed) == PagesOf(root) + written
    ensures Accounted(after, Gate(w, freed, quiescent), leaked)
  {
    hide AllIds, PagesOf;
    var g := Gate(w, freed, quiescent);
    assert multiset(g.free) + multiset(g.pending) == multiset(w.free) + multiset(w.pending) + multiset(freed);
    GateBalance(multiset{HEADER_PAGE_ID}, PagesOf(root), PagesOf(after), multiset(w.free), multiset(w.pending),
                multiset(g.free), multiset(g.pending), written, multiset(freed), multiset(w.chain), leaked, AllIds(w.next));
  }

  lemma GateBalance(zero: multiset<PageId>, root: multiset<PageId>, after: multiset<PageId>, free: multiset<PageId>,
                    pending: multiset<PageId>, free': multiset<PageId>, pending': multiset<PageId>, written: multiset<PageId>,
                    freed: multiset<PageId>, chain: multiset<PageId>, leaked: multiset<PageId>, all: multiset<PageId>)
    requires zero + root + (free + written) + pending + chain + leaked == all
    requires after + freed == root + written && free' + pending' == free + pending + freed
    ensures zero + after + free' + pending' + chain + leaked == all
  {
    forall x: PageId
      ensures (zero + after + free' + pending' + chain + leaked)[x] == all[x]
    {
      assert (zero + root + (free + written) + pending + chain + leaked)[x] == all[x];
      assert (after + freed)[x] == (root + written)[x];
      assert (free' + pending')[x] == (free + pending + freed)[x];
    }
  }

  lemma {:induction false} GrownAccounts(root: Rooted, w: Writer, needed: nat, leaked: multiset<PageId>)
    requires Accounted(root, w, leaked)
    ensures Accounted(root, GrownChain(w, needed), leaked)
    ensures w.chain <= GrownChain(w, needed).chain && (|w.chain| >= needed ==> GrownChain(w, needed) == w)
    ensures GrownChain(w, needed).next == w.next + if |w.chain| < needed then needed - |w.chain| else 0
    decreases needed - |w.chain|
  {
    hide Accounted;
    if |w.chain| < needed {
      GrownOnce(root, w, leaked);
      GrownAccounts(root, w.(chain := w.chain + [w.next], next := w.next + 1), needed, leaked);
    }
  }

  lemma GrownOnce(root: Rooted, w: Writer, leaked: multiset<PageId>)
    requires Accounted(root, w, leaked)
    ensures Accounted(root, w.(chain := w.chain + [w.next], next := w.next + 1), leaked)
  {
    hide PagesOf;
    assert multiset(w.chain + [w.next]) == multiset(w.chain) + multiset{w.next};
  }

  /** Distinct ids below n are at most n many. */
  lemma {:induction false} DistinctBelow(ids: seq<PageId>, n: nat)
    requires Distinct(ids) && forall id :: id in ids ==> id < n
    ensures |ids| <= n
    decreases n
  {
    if n == 0 {
      assert forall i :: 0 <= i < |ids| ==> ids[i] in ids;
    } else if n - 1 in ids {
      var i :| 0 <= i < |ids| && ids[i] == n - 1;
      var rest := ids[..i] + ids[i + 1..];
      forall a, b | 0 <= a < b < |rest|
        ensures rest[a] != rest[b]
      {
        assert rest[a] == ids[if a < i then a else a + 1] && rest[b] == ids[if b < i then b else b + 1];
      }
      forall id | id in rest
        ensures id < n - 1
      {
        var a :| 0 <= a < |rest| && rest[a] == id;
        var b := if a < i then a else a + 1;
        assert rest[a] == ids[b] && ids[b] in ids && b != i;
      }
      DistinctBelow(rest, n - 1);
    } else {
      DistinctBelow(ids, n - 1);
    }
  }
}
