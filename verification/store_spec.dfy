/**
 What the store keeps beside the tree: the writer's page lists, the free-list chain they are
 persisted to, and the header. Each step of a commit is a function of these values.
 */
module StoreSpec {
  import opened Wrappers
  import opened ByteStrings
  import opened PageFormat
  import opened SplitPoints
  import opened FreeListPages
  import opened HeaderPages
  import opened TreeStorage

  const INITIAL_ROOT_PAGE_ID: PageId := 1

  datatype Writer = Writer(next: nat, free: seq<PageId>, pending: seq<PageId>, chain: seq<PageId>)

  datatype DiskWrite = DiskWrite(id: PageId, bytes: Bytes)

  function Applied(d: Disk, writes: seq<DiskWrite>): Disk
    decreases |writes|
  {
    if writes == [] then d else Applied(d[writes[0].id := writes[0].bytes], writes[1..])
  }

  /* ---- The quiescence gate ---- */

  /** This transaction's orphans join the pending pages; with no reader active all pending pages become reusable. */
  function Gate(w: Writer, freed: seq<PageId>, quiescent: bool): Writer {
    if quiescent then w.(free := w.free + (w.pending + freed), pending := [])
    else w.(pending := w.pending + freed)
  }

  /* ---- The free-list chain ---- */

  /** How many ids one chain page takes. */
  function ChainCapacity(pageSize: nat): (r: nat)
    requires pageSize >= FREE_LIST_HEADER
    ensures r >= 1 && (pageSize >= MIN_PAGE_SIZE ==> FREE_LIST_HEADER + 8 * r <= pageSize)
  {
    if FreeListCapacity(pageSize) >= 1 then FreeListCapacity(pageSize) else 1
  }

  /** A chain page takes as many ids as fit behind its header, and none would take one more. */
  lemma CapacityIsGreatest(pageSize: nat, n: nat)
    requires pageSize >= 27
    ensures 19 + 8 * n <= pageSize <==> n <= ChainCapacity(pageSize)
    ensures ChainCapacity(pageSize) == FreeListCapacity(pageSize)
  {
  }

  function Payload(w: Writer): seq<PageId> {
    w.free + w.pending
  }

  /** The payload cut into pages. */
  function Chunks(ids: seq<PageId>, cap: nat): (r: seq<seq<PageId>>)
    requires cap >= 1
    ensures |r| <= |ids| && (ids == [] <==> r == [])
    ensures forall c :: c in r ==> |c| <= cap
  {
    if ids == [] then []
    else if |ids| <= cap then [ids]
    else [ids[..cap]] + Chunks(ids[cap..], cap)
  }

  function PagesNeeded(w: Writer, pageSize: nat): nat
    requires pageSize >= MIN_PAGE_SIZE
  {
    |Chunks(Payload(w), ChainCapacity(pageSize))|
  }

  /** The chain extended at the end of the file until it is long enough; it never shrinks. */
  function GrownChain(w: Writer, needed: nat): (r: Writer)
    ensures |r.chain| >= needed && r.free == w.free && r.pending == w.pending
    decreases needed - |w.chain|
  {
    if |w.chain| < needed then GrownChain(w.(chain := w.chain + [w.next], next := w.next + 1), needed) else w
  }

  /** It grows by ids from the end of the file, and only as far as it must. */
  lemma {:induction false} GrownKeeps(w: Writer, needed: nat)
    ensures var r := GrownChain(w, needed);
            && w.chain <= r.chain && r.next == w.next + |r.chain| - |w.chain|
            && |r.chain| == (if |w.chain| < needed then needed else |w.chain|)
            && forall i :: |w.chain| <= i < |r.chain| ==> r.chain[i] >= w.next
    decreases needed - |w.chain|
  {
    if |w.chain| < needed {
      GrownKeeps(w.(chain := w.chain + [w.next], next := w.next + 1), needed);
    }
  }

  function ChainGrown(w: Writer, pageSize: nat): Writer
    requires pageSize >= MIN_PAGE_SIZE
  {
    GrownChain(w, PagesNeeded(w, pageSize))
  }

  /** The id of the chain's first page, 0 when there is nothing to store. */
  function HeadOf(ids: seq<PageId>): PageId {
    if ids == [] then 0 else ids[0]
  }

  ghost predicate ChunksFit(chunks: seq<seq<PageId>>, pageSize: nat) {
    forall c :: c in chunks ==> FREE_LIST_HEADER + 8 * |c| <= pageSize
  }

  function ChainImage(id: PageId, next: PageId, chunk: seq<PageId>, pageSize: nat): DiskWrite {
    DiskWrite(id, if FREE_LIST_HEADER + 8 * |chunk| <= pageSize then FreeListBytes(id, next, chunk, pageSize)
                  else FreeListUnpadded(id, next, chunk))
  }

  /** The chain pages in order, each naming the next. */
  function ChainImages(ids: seq<PageId>, chunks: seq<seq<PageId>>, pageSize: nat): (r: seq<DiskWrite>)
    requires |ids| == |chunks|
    ensures |r| == |ids| && forall i :: 0 <= i < |r| ==> r[i].id == ids[i]
    decreases |ids|
  {
    if ids == [] then []
    else [ChainImage(ids[0], HeadOf(ids[1..]), chunks[0], pageSize)] + ChainImages(ids[1..], chunks[1..], pageSize)
  }

  /** The part of the chain that the current payload takes. */
  function UsedChain(w: Writer, pageSize: nat): seq<PageId>
    requires pageSize >= MIN_PAGE_SIZE && PagesNeeded(w, pageSize) <= |w.chain|
  {
    w.chain[..PagesNeeded(w, pageSize)]
  }

  function ChainWrites(w: Writer, pageSize: nat): (r: seq<DiskWrite>)
    requires pageSize >= MIN_PAGE_SIZE && PagesNeeded(w, pageSize) <= |w.chain|
    ensures forall i :: 0 <= i < |r| ==> r[i].id in w.chain
  {
    ChainImages(UsedChain(w, pageSize), Chunks(Payload(w), ChainCapacity(pageSize)), pageSize)
  }

  function HeaderOf(w: Writer, root: PageId, pageSize: nat): Header
    requires pageSize >= MIN_PAGE_SIZE && PagesNeeded(w, pageSize) <= |w.chain|
  {
    Header(pageSize, root, w.next, HeadOf(UsedChain(w, pageSize)), |Payload(w)|)
  }

  /* ---- Reading the chain back ---- */

  /** Following the chain from `head` visits `ids` and collects `entries`. */
  ghost predicate ChainOnDisk(d: Disk, head: PageId, ids: seq<PageId>, entries: seq<PageId>)
    decreases |ids|
  {
    if ids == [] then head == 0 && entries == []
    else
      && head == ids[0] && head != 0 && head in d
      && var page := ParseFreeList(head, d[head]);
      && page.Some? && page.value.1 <= entries
      && ChainOnDisk(d, page.value.0, ids[1..], entries[|page.value.1|..])
  }

  /** A walk from a given page is determined by the disk: the same pages, the same entries. */
  lemma {:induction false} ChainIsDetermined(
    d: Disk, head: PageId, ids: seq<PageId>, entries: seq<PageId>, ids': seq<PageId>, entries': seq<PageId>)
    requires ChainOnDisk(d, head, ids, entries) && ChainOnDisk(d, head, ids', entries')
    ensures ids == ids' && entries == entries'
    decreases |ids|
  {
    if ids != [] {
      var (next, chunk) := ParseFreeList(head, d[head]).value;
      ChainIsDetermined(d, next, ids[1..], entries[|chunk|..], ids'[1..], entries'[|chunk|..]);
      assert ids == [ids[0]] + ids[1..] && ids' == [ids'[0]] + ids'[1..];
      assert entries == chunk + entries[|chunk|..] && entries' == chunk + entries'[|chunk|..];
    }
  }

  ghost predicate Distinct(ids: seq<PageId>) {
    forall i, j :: 0 <= i < j < |ids| ==> ids[i] != ids[j]
  }

  lemma {:induction false} AppliedElsewhere(d: Disk, writes: seq<DiskWrite>, id: PageId)
    requires forall i :: 0 <= i < |writes| ==> writes[i].id != id
    ensures id in Applied(d, writes) <==> id in d
    ensures id in d ==> Applied(d, writes)[id] == d[id]
    decreases |writes|
  {
    if writes != [] {
      AppliedElsewhere(d[writes[0].id := writes[0].bytes], writes[1..], id);
    }
  }

  function Joined(chunks: seq<seq<PageId>>): seq<PageId> {
    if chunks == [] then [] else chunks[0] + Joined(chunks[1..])
  }

  lemma JoinedFirst(first: seq<PageId>, rest: seq<seq<PageId>>)
    ensures Joined([first] + rest) == first + Joined(rest)
  {
    assert ([first] + rest)[1..] == rest;
  }

  lemma {:induction false} ChunksJoin(ids: seq<PageId>, cap: nat)
    requires cap >= 1
    ensures Joined(Chunks(ids, cap)) == ids
    decreases |ids|
  {
    if |ids| > cap {
      ChunksJoin(ids[cap..], cap);
      JoinedFirst(ids[..cap], Chunks(ids[cap..], cap));
      assert ids == ids[..cap] + ids[cap..];
    } else if ids != [] {
      JoinedFirst(ids, []);
    }
  }

  ghost predicate RealIds(ids: seq<PageId>) {
    forall id :: id in ids ==> 0 < id < U64_RANGE
  }

  ghost predicate IsHeld(d: Disk, w: DiskWrite) {
    w.id in d && d[w.id] == w.bytes
  }

  /** Each of these pages is on the disk. */
  ghost predicate Held(d: Disk, writes: seq<DiskWrite>) {
    forall i :: 0 <= i < |writes| ==> IsHeld(d, writes[i])
  }

  /** Pages written once each are all there afterwards. */
  lemma {:induction false} AppliedHolds(d: Disk, writes: seq<DiskWrite>)
    requires forall i, j :: 0 <= i < j < |writes| ==> writes[i].id != writes[j].id
    ensures Held(Applied(d, writes), writes)
    decreases |writes|
  {
    if writes != [] {
      var d1, rest := d[writes[0].id := writes[0].bytes], writes[1..];
      assert forall i :: 0 <= i < |rest| ==> rest[i] == writes[i + 1];
      AppliedHolds(d1, rest);
      AppliedElsewhere(d1, rest, writes[0].id);
      assert forall i :: 0 < i < |writes| ==> writes[i] == rest[i - 1];
    }
  }

  /** With the chain's pages on disk the chain is readable: every page and every entry comes back, in order. */
  lemma {:induction false} HeldChainReads(d: Disk, ids: seq<PageId>, chunks: seq<seq<PageId>>, pageSize: nat)
    requires |ids| == |chunks| && pageSize <= U16_MAX && ChunksFit(chunks, pageSize)
    requires Distinct(ids) && RealIds(ids) && forall c :: c in chunks ==> RealIds(c)
    requires Held(d, ChainImages(ids, chunks, pageSize))
    ensures ChainOnDisk(d, HeadOf(ids), ids, Joined(chunks))
    decreases |ids|
  {
    hide ParseFreeList, RealIds, Held, ChainImage, ChainImages, ChunksFit;
    if ids != [] {
      HeldTail(d, ids, chunks, pageSize);
      TailFacts(ids, chunks, pageSize);
      HeldChainReads(d, ids[1..], chunks[1..], pageSize);
      ChainPageRoundTrip(ids[0], HeadOf(ids[1..]), chunks[0], pageSize);
      assert (chunks[0] + Joined(chunks[1..]))[|chunks[0]|..] == Joined(chunks[1..]);
    }
  }

  lemma HeldTail(d: Disk, ids: seq<PageId>, chunks: seq<seq<PageId>>, pageSize: nat)
    requires |ids| == |chunks| > 0 && Held(d, ChainImages(ids, chunks, pageSize))
    ensures ids[0] in d && d[ids[0]] == ChainImage(ids[0], HeadOf(ids[1..]), chunks[0], pageSize).bytes
    ensures Held(d, ChainImages(ids[1..], chunks[1..], pageSize))
  {
    hide ChainImage;
    var first := ChainImage(ids[0], HeadOf(ids[1..]), chunks[0], pageSize);
    var rest, all := ChainImages(ids[1..], chunks[1..], pageSize), ChainImages(ids, chunks, pageSize);
    FirstImage(ids, chunks, pageSize);
    assert all[0] == first;
    forall i | 0 <= i < |rest|
      ensures rest[i].id in d && d[rest[i].id] == rest[i].bytes
    {
      assert rest[i] == all[i + 1];
    }
  }

  lemma FirstImage(ids: seq<PageId>, chunks: seq<seq<PageId>>, pageSize: nat)
    requires |ids| == |chunks| > 0
    ensures ChainImages(ids, chunks, pageSize)
         == [ChainImage(ids[0], HeadOf(ids[1..]), chunks[0], pageSize)] + ChainImages(ids[1..], chunks[1..], pageSize)
    ensures ChainImage(ids[0], HeadOf(ids[1..]), chunks[0], pageSize).id == ids[0]
  {
  }

  /** Writing the chain's pages puts them all on disk and makes the chain readable. */
  lemma ChainWritten(d: Disk, ids: seq<PageId>, chunks: seq<seq<PageId>>, pageSize: nat)
    requires |ids| == |chunks| && pageSize <= U16_MAX && ChunksFit(chunks, pageSize)
    requires Distinct(ids) && RealIds(ids) && forall c :: c in chunks ==> RealIds(c)
    ensures var images := ChainImages(ids, chunks, pageSize);
            Held(Applied(d, images), images)
            && ChainOnDisk(Applied(d, images), HeadOf(ids), ids, Joined(chunks))
  {
    hide Applied, Held, ChainOnDisk, RealIds;
    var images := ChainImages(ids, chunks, pageSize);
    AppliedHolds(d, images);
    HeldChainReads(Applied(d, images), ids, chunks, pageSize);
  }

  lemma TailFacts(ids: seq<PageId>, chunks: seq<seq<PageId>>, pageSize: nat)
    requires |ids| == |chunks| > 0 && ChunksFit(chunks, pageSize)
    requires Distinct(ids) && RealIds(ids) && forall c :: c in chunks ==> RealIds(c)
    ensures ChunksFit(chunks[1..], pageSize) && Distinct(ids[1..]) && RealIds(ids[1..])
    ensures 0 < ids[0] < U64_RANGE && HeadOf(ids[1..]) < U64_RANGE && RealIds(chunks[0])
    ensures FREE_LIST_HEADER + 8 * |chunks[0]| <= pageSize
  {
    assert ids[0] in ids && chunks[0] in chunks;
    assert forall id :: id in ids[1..] ==> id in ids;
    assert ids[1..] != [] ==> ids[1..][0] in ids;
  }

  lemma ChainPageRoundTrip(id: PageId, next: PageId, chunk: seq<PageId>, pageSize: nat)
    requires pageSize <= U16_MAX && FREE_LIST_HEADER + 8 * |chunk| <= pageSize
    requires id < U64_RANGE && next < U64_RANGE && RealIds(chunk)
    ensures ParseFreeList(id, ChainImage(id, next, chunk, pageSize).bytes) == Some((next, chunk))
  {
    hide FreeListUnpadded, ParseFreeList;
    FreeListRoundTrip(id, next, chunk, FreeListBytes(id, next, chunk, pageSize));
  }

  /* ---- The chain page by page ---- */

  lemma {:induction false} AppliedNext(d: Disk, writes: seq<DiskWrite>, i: nat)
    requires i < |writes|
    ensures Applied(d, writes[..i + 1]) == Applied(d, writes[..i])[writes[i].id := writes[i].bytes]
    decreases i
  {
    if i == 0 {
      assert writes[..1] == [writes[0]] && writes[..0] == [];
      assert [writes[0]][1..] == [];
    } else {
      assert writes[..i + 1][1..] == writes[1..][..i] && writes[..i][1..] == writes[1..][..i - 1];
      AppliedNext(d[writes[0].id := writes[0].bytes], writes[1..], i - 1);
    }
  }

  lemma {:induction false} ChainImageAt(ids: seq<PageId>, chunks: seq<seq<PageId>>, pageSize: nat, i: nat)
    requires |ids| == |chunks| && i < |ids|
    ensures ChainImages(ids, chunks, pageSize)[i] == ChainImage(ids[i], HeadOf(ids[i + 1..]), chunks[i], pageSize)
    decreases i
  {
    hide ChainImage;
    if i > 0 {
      ChainImageAt(ids[1..], chunks[1..], pageSize, i - 1);
      assert ids[1..][i..] == ids[i + 1..];
    }
  }

  /** Chunk i is the stretch of `cap` ids from i * cap, and there are ceil(len / cap) of them. */
  lemma {:induction false} ChunkAt(ids: seq<PageId>, cap: nat, i: nat)
    requires cap >= 1 && i < |Chunks(ids, cap)|
    ensures 0 <= i * cap < |ids|
    ensures Chunks(ids, cap)[i] == ids[i * cap..if (i + 1) * cap <= |ids| then (i + 1) * cap else |ids|]
    decreases i
  {
    if |ids| > cap && i > 0 {
      ChunkAt(ids[cap..], cap, i - 1);
      OneMoreTimes(i - 1, cap);
      OneMoreTimes(i, cap);
      var rest, from, to := ids[cap..], (i - 1) * cap, i * cap;
      ShiftedSlice(ids, cap, from, if to <= |rest| then to else |rest|);
    } else {
      OneMoreTimes(0, cap);
    }
  }

  lemma OneMoreTimes(i: nat, cap: nat)
    ensures (i + 1) * cap == i * cap + cap
  {
  }

  lemma ShiftedSlice(ids: seq<PageId>, shift: nat, from: nat, to: nat)
    requires shift <= |ids| && from <= to <= |ids| - shift
    ensures ids[shift..][from..to] == ids[from + shift..to + shift]
  {
  }

  /** `usize::div_ceil`: the least number of d's that cover n. */
  function DivCeil(n: nat, d: nat): (r: nat)
    requires d >= 1
    ensures n <= r * d && (r > 0 ==> (r - 1) * d < n)
  {
    if n == 0 then 0 else if n <= d then 1
    else
      var rest := DivCeil(n - d, d);
      assert (rest + 1) * d == rest * d + d;
      assert rest > 0 ==> rest * d == (rest - 1) * d + d;
      rest + 1
  }

  lemma {:induction false} ChunkTotal(ids: seq<PageId>, cap: nat)
    requires cap >= 1
    ensures |Chunks(ids, cap)| == DivCeil(|ids|, cap)
    decreases |ids|
  {
    if |ids| > cap {
      ChunkTotal(ids[cap..], cap);
    }
  }

  lemma HeadOfRest(chain: seq<PageId>, needed: nat, i: nat)
    requires i < needed <= |chain|
    ensures HeadOf(chain[..needed][i + 1..]) == if i + 1 < needed then chain[i + 1] else 0
  {
  }

  /* ---- Cutting and joining ---- */

  lemma {:induction false} JoinedConcat(a: seq<seq<PageId>>, b: seq<seq<PageId>>)
    ensures Joined(a + b) == Joined(a) + Joined(b)
    decreases |a|
  {
    if a == [] {
      assert a + b == b;
    } else {
      assert (a + b)[1..] == a[1..] + b;
      JoinedConcat(a[1..], b);
    }
  }

  lemma CutShift(ids: seq<PageId>, cap: nat, m: nat)
    requires cap + m <= |ids|
    ensures ids[..cap] + ids[cap..][..m] == ids[..cap + m] && ids[cap..][m..] == ids[cap + m..]
  {
  }

  lemma ChunksStep(ids: seq<PageId>, cap: nat, k: nat)
    requires cap >= 1 && 0 < k < |Chunks(ids, cap)|
    ensures |ids| > cap && k - 1 < |Chunks(ids[cap..], cap)|
    ensures Chunks(ids, cap)[..k] == [ids[..cap]] + Chunks(ids[cap..], cap)[..k - 1]
    ensures Chunks(ids, cap)[k..] == Chunks(ids[cap..], cap)[k - 1..]
  {
    assert Chunks(ids, cap) == [ids[..cap]] + Chunks(ids[cap..], cap);
  }

  lemma ChunksUncut(ids: seq<PageId>, cap: nat)
    requires cap >= 1 && Chunks(ids, cap) != []
    ensures ids != [] && Joined(Chunks(ids, cap)[..0]) == [] && Joined(Chunks(ids, cap)[0..]) == ids
  {
    assert Chunks(ids, cap)[0..] == Chunks(ids, cap);
    ChunksJoin(ids, cap);
  }

  /** The first k chunks hold the first k * cap ids, the others the rest. */
  lemma {:induction false} ChunksCut(ids: seq<PageId>, cap: nat, k: nat)
    requires cap >= 1 && k < |Chunks(ids, cap)|
    ensures k * cap < |ids|
    ensures Joined(Chunks(ids, cap)[..k]) == ids[..k * cap] && Joined(Chunks(ids, cap)[k..]) == ids[k * cap..]
    decreases k
  {
    hide Chunks, Joined;
    if k == 0 {
      ChunksUncut(ids, cap);
    } else {
      ChunksStep(ids, cap, k);
      ChunksCut(ids[cap..], cap, k - 1);
      OneMoreTimes(k - 1, cap);
      JoinedFirst(ids[..cap], Chunks(ids[cap..], cap)[..k - 1]);
      CutShift(ids, cap, (k - 1) * cap);
    }
  }

  /** Lists agree on the ids of the first k chunks exactly when their first k chunks are the same. */
  lemma {:induction false} ChunksAgree(a: seq<PageId>, b: seq<PageId>, cap: nat, k: nat)
    requires cap >= 1 && k < |Chunks(a, cap)| && k < |Chunks(b, cap)|
    ensures k * cap < |a| && k * cap < |b|
    ensures a[..k * cap] == b[..k * cap] <==> Chunks(a, cap)[..k] == Chunks(b, cap)[..k]
    decreases k
  {
    hide Chunks, Joined;
    if k == 0 {
      OneMoreTimes(0, cap);
      ChunksUncut(a, cap);
      ChunksUncut(b, cap);
    } else {
      var m := (k - 1) * cap;
      ChunksStep(a, cap, k);
      ChunksStep(b, cap, k);
      ChunksAgree(a[cap..], b[cap..], cap, k - 1);
      OneMoreTimes(k - 1, cap);
      SameCut(a, b, cap, m);
      SamePrefix(a[..cap], b[..cap], Chunks(a[cap..], cap)[..k - 1], Chunks(b[cap..], cap)[..k - 1]);
    }
  }

  lemma SameCut(a: seq<PageId>, b: seq<PageId>, cap: nat, m: nat)
    requires cap + m <= |a| && cap + m <= |b|
    ensures a[..cap + m] == b[..cap + m] <==> a[..cap] == b[..cap] && a[cap..][..m] == b[cap..][..m]
  {
    CutShift(a, cap, m);
    CutShift(b, cap, m);
    if a[..cap + m] == b[..cap + m] {
      assert a[..cap] == a[..cap + m][..cap] && b[..cap] == b[..cap + m][..cap];
      assert a[cap..][..m] == a[..cap + m][cap..] && b[cap..][..m] == b[..cap + m][cap..];
    }
  }

  lemma SamePrefix(x: seq<PageId>, y: seq<PageId>, a: seq<seq<PageId>>, b: seq<seq<PageId>>)
    ensures [x] + a == [y] + b <==> x == y && a == b
  {
    if [x] + a == [y] + b {
      assert ([x] + a)[0] == x && ([y] + b)[0] == y;
      assert ([x] + a)[1..] == a && ([y] + b)[1..] == b;
    }
  }
}
