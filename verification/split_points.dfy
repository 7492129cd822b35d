/**
 Where an oversized page is cut. The size limit on entries makes the two correcting loops of
 each split end at a cut whose halves both fit, and a page-size bound keeps their 16-bit sums exact.
 */
module SplitPoints {
  import opened ByteStrings
  import opened PageFormat

  /** The header page needs 49 bytes. */
  const MIN_PAGE_SIZE: nat := 49

  /** The largest page size for which no 16-bit offset of a grown leaf wraps: see `OffsetsFitExactly`. */
  const MAX_PAGE_SIZE: nat := 43708

  /** The source's saturating subtraction. */
  function MaxKvSize(pageSize: nat): nat {
    if pageSize < NODE_HEADER + 28 then 0 else (pageSize - (NODE_HEADER + 28)) / 2
  }

  predicate WithinLimits(e: Entry, pageSize: nat) {
    |e.key| + |e.value| <= MaxKvSize(pageSize)
  }

  ghost predicate AllWithinLimits(es: seq<Entry>, pageSize: nat) {
    forall e :: e in es ==> WithinLimits(e, pageSize)
  }

  ghost predicate LeafFits(es: seq<Entry>, pageSize: nat) {
    NODE_HEADER + EntriesSize(es) <= pageSize && AllWithinLimits(es, pageSize)
  }

  ghost predicate InnerFits(keys: seq<Key>, pageSize: nat) {
    && NODE_HEADER + KeysSize(keys) + 8 * (|keys| + 1) <= pageSize
    && forall k :: k in keys ==> |k| <= MaxKvSize(pageSize)
  }

  function Inserted(es: seq<Entry>, i: nat, e: Entry): seq<Entry>
    requires i <= |es|
  {
    es[..i] + [e] + es[i..]
  }

  function Replaced(es: seq<Entry>, i: nat, e: Entry): seq<Entry>
    requires i < |es|
  {
    es[..i] + [e] + es[i + 1..]
  }

  /* ---- Leaf cuts ---- */

  function LeafLeft(es: seq<Entry>, m: nat): nat
    requires m <= |es|
  {
    NODE_HEADER + EntriesSize(es[..m])
  }

  function LeafRight(es: seq<Entry>, m: nat): nat
    requires m <= |es|
  {
    NODE_HEADER + EntriesSize(es[m..])
  }

  function LeafDown(es: seq<Entry>, m: nat, pageSize: nat): (r: nat)
    requires m <= |es|
    ensures r <= m
  {
    if m >= 1 && LeafLeft(es, m) > pageSize then LeafDown(es, m - 1, pageSize) else m
  }

  function LeafUp(es: seq<Entry>, m: nat, pageSize: nat): (r: nat)
    requires m <= |es|
    ensures m <= r <= |es|
    decreases |es| - m
  {
    if m + 1 < |es| && LeafRight(es, m) > pageSize then LeafUp(es, m + 1, pageSize) else m
  }

  /** The down loop from the middle, then the up loop. */
  function LeafCut(es: seq<Entry>, pageSize: nat): (r: nat)
    ensures r <= |es|
  {
    LeafUp(es, LeafDown(es, |es| / 2, pageSize), pageSize)
  }

  /** An oversized leaf that was fitting before one entry was added or enlarged. */
  ghost predicate Overgrown(es: seq<Entry>, pageSize: nat) {
    && MIN_PAGE_SIZE <= pageSize
    && pageSize < NODE_HEADER + EntriesSize(es) <= pageSize + 4 + MaxKvSize(pageSize)
    && AllWithinLimits(es, pageSize)
  }

  ghost predicate GoodLeafCut(es: seq<Entry>, m: nat, pageSize: nat) {
    1 <= m < |es| && LeafLeft(es, m) <= pageSize && LeafRight(es, m) <= pageSize
  }

  lemma LeafSides(es: seq<Entry>, m: nat)
    requires m <= |es|
    ensures LeafLeft(es, m) + LeafRight(es, m) == 2 * NODE_HEADER + EntriesSize(es)
  {
    EntriesSizeSplit(es, m);
  }

  lemma LeafLeftNext(es: seq<Entry>, m: nat, pageSize: nat)
    requires m < |es| && AllWithinLimits(es, pageSize)
    ensures 4 <= LeafLeft(es, m + 1) - LeafLeft(es, m) <= 4 + MaxKvSize(pageSize)
  {
    EntriesSizeNext(es, m);
    assert es[m] in es;
  }

  /** One entry never fills a page, so an overgrown leaf has at least two. */
  lemma OvergrownHasTwo(es: seq<Entry>, pageSize: nat)
    requires Overgrown(es, pageSize)
    ensures |es| >= 2 && LeafLeft(es, 0) == NODE_HEADER
  {
    hide AllWithinLimits;
    if |es| == 1 {
      assert es[..1] == es;
      LeafLeftNext(es, 0, pageSize);
    }
  }

  /** The down loop stops at a left half that fits, and if it moved at all the right half already fits too. */
  lemma {:induction false} LeafDownStops(es: seq<Entry>, m: nat, pageSize: nat)
    requires Overgrown(es, pageSize) && 1 <= m < |es|
    ensures var d := LeafDown(es, m, pageSize);
            1 <= d <= m && LeafLeft(es, d) <= pageSize && (d < m ==> LeafRight(es, d) <= pageSize)
    decreases m
  {
    hide AllWithinLimits, EntriesSize, LeafLeft, LeafRight;
    OvergrownHasTwo(es, pageSize);
    LeafLeftNext(es, 0, pageSize);
    if LeafLeft(es, m) > pageSize {
      LeafLeftNext(es, m - 1, pageSize);
      LeafSides(es, m - 1);
      LeafDownStops(es, m - 1, pageSize);
    }
  }

  /** The up loop keeps the left half fitting and stops where the right half fits. */
  lemma {:induction false} LeafUpStops(es: seq<Entry>, m: nat, pageSize: nat)
    requires Overgrown(es, pageSize) && 1 <= m < |es| && LeafLeft(es, m) <= pageSize
    ensures GoodLeafCut(es, LeafUp(es, m, pageSize), pageSize)
    decreases |es| - m
  {
    hide AllWithinLimits, EntriesSize, LeafLeft, LeafRight;
    LeafSides(es, m);
    LeafLeftNext(es, m, pageSize);
    if LeafRight(es, m) > pageSize {
      if m + 1 == |es| {
        LeafSides(es, m + 1);
        LeafRightAtEnd(es);
      } else {
        LeafUpStops(es, m + 1, pageSize);
      }
    }
  }

  lemma LeafRightAtEnd(es: seq<Entry>)
    ensures LeafRight(es, |es|) == NODE_HEADER
  {
  }

  /** A leaf split always succeeds, and its second loop never undoes the first. */
  lemma LeafSplitSucceeds(es: seq<Entry>, pageSize: nat)
    requires Overgrown(es, pageSize)
    ensures |es| >= 2 && GoodLeafCut(es, LeafCut(es, pageSize), pageSize)
    ensures var d := LeafDown(es, |es| / 2, pageSize); d < |es| / 2 ==> LeafCut(es, pageSize) == d
  {
    hide LeafLeft, LeafRight, Overgrown;
    OvergrownHasTwo(es, pageSize);
    LeafDownStops(es, |es| / 2, pageSize);
    LeafUpStops(es, LeafDown(es, |es| / 2, pageSize), pageSize);
  }

  lemma {:induction false} LeafDownSkips(es: seq<Entry>, m: nat, k: nat, pageSize: nat)
    requires m <= |es| && LeafDown(es, m, pageSize) < k <= m
    ensures LeafLeft(es, k) > pageSize
    decreases m
  {
    hide EntriesSize;
    if k < m {
      LeafDownSkips(es, m - 1, k, pageSize);
    }
  }

  lemma {:induction false} LeafUpSkips(es: seq<Entry>, m: nat, k: nat, pageSize: nat)
    requires m <= |es| && m <= k < LeafUp(es, m, pageSize)
    ensures LeafRight(es, k) > pageSize
    decreases |es| - m
  {
    hide EntriesSize;
    if m < k {
      LeafUpSkips(es, m + 1, k, pageSize);
    }
  }

  /** The cut is nearest to the middle: any other cut whose halves fit lies behind it as seen from there. */
  lemma LeafCutIsNearest(es: seq<Entry>, m: nat, pageSize: nat)
    requires Overgrown(es, pageSize) && GoodLeafCut(es, m, pageSize)
    ensures var cut, mid := LeafCut(es, pageSize), |es| / 2; m <= cut <= mid || mid <= cut <= m
  {
    var cut, mid := LeafCut(es, pageSize), |es| / 2;
    LeafSplitSucceeds(es, pageSize);
    hide LeafLeft, LeafRight, LeafDown, LeafUp, Overgrown;
    if cut < mid && cut < m {
      LeafDownSkips(es, mid, if m < mid then m else mid, pageSize);
      LeafSidesMonotone(es, if m < mid then m else mid, m);
    } else if mid < cut && m < cut {
      LeafUpSkips(es, mid, if m < mid then mid else m, pageSize);
      LeafSidesMonotone(es, m, if m < mid then mid else m);
    }
  }

  lemma InsertedSize(es: seq<Entry>, i: nat, e: Entry)
    requires i <= |es|
    ensures EntriesSize(Inserted(es, i, e)) == EntriesSize(es) + EntrySize(e)
  {
    EntriesSizeSplit(es, i);
    EntriesSizeConcat(es[..i] + [e], es[i..]);
    EntriesSizeConcat(es[..i], [e]);
    assert EntriesSize([e]) == EntrySize(e);
  }

  lemma ReplacedSize(es: seq<Entry>, i: nat, e: Entry)
    requires i < |es|
    ensures EntriesSize(Replaced(es, i, e)) == EntriesSize(es) + EntrySize(e) - EntrySize(es[i])
  {
    EntriesSizeSplit(es, i + 1);
    EntriesSizeNext(es, i);
    EntriesSizeConcat(es[..i] + [e], es[i + 1..]);
    EntriesSizeConcat(es[..i], [e]);
    assert EntriesSize([e]) == EntrySize(e);
  }

  /** A fitting leaf with one entry inserted or replaced within the limits still fits or is overgrown. */
  lemma PutFitsOrOvergrows(es: seq<Entry>, i: nat, e: Entry, pageSize: nat)
    requires MIN_PAGE_SIZE <= pageSize && LeafFits(es, pageSize) && WithinLimits(e, pageSize) && i <= |es|
    ensures LeafFits(Inserted(es, i, e), pageSize) || Overgrown(Inserted(es, i, e), pageSize)
    ensures i < |es| ==> LeafFits(Replaced(es, i, e), pageSize) || Overgrown(Replaced(es, i, e), pageSize)
  {
    hide EntriesSize, MaxKvSize;
    InsertedSize(es, i, e);
    if i < |es| {
      ReplacedSize(es, i, e);
    }
  }

  /* ---- The page-size bound ---- */

  /** No put into a fitting, sorted leaf of this page size builds an entry list longer than a `u16` can measure. */
  ghost predicate OffsetsFit(pageSize: nat) {
    forall es: seq<Entry>, i: nat, e ::
      i <= |es| && LeafFits(es, pageSize) && WithinLimits(e, pageSize) && Sorted(KeysOf(Inserted(es, i, e)))
      ==> EntriesSize(Inserted(es, i, e)) <= U16_MAX
  }

  function KeysOf(es: seq<Entry>): (r: seq<Key>)
    ensures |r| == |es|
  {
    seq(|es|, i requires 0 <= i < |es| => es[i].key)
  }

  function Padded(first: Byte, kvSize: nat): (e: Entry)
    requires kvSize >= 1
    ensures |e.key| + |e.value| == kvSize
  {
    Entry([first], Zeros(kvSize - 1))
  }

  /** A page filled to the last byte by two entries of the largest size and a small one. */
  function FullLeaf(pageSize: nat): seq<Entry>
    requires pageSize > MAX_PAGE_SIZE
  {
    var max := MaxKvSize(pageSize);
    [Padded(0, max), Padded(1, max), Padded(2, pageSize - NODE_HEADER - 2 * (4 + max) - 4)]
  }

  lemma FullLeafFits(pageSize: nat)
    requires pageSize > MAX_PAGE_SIZE
    ensures LeafFits(FullLeaf(pageSize), pageSize) && EntriesSize(FullLeaf(pageSize)) == pageSize - NODE_HEADER
  {
    var es := FullLeaf(pageSize);
    assert es[..2] == [es[0], es[1]] && es[..2][..1] == [es[0]];
    assert EntriesSize(es[..2]) == EntriesSize(es[..2][..1]) + EntrySize(es[1]);
  }

  /** The bound is exact: from the header's size up, offsets fit exactly for page sizes to `MAX_PAGE_SIZE`. */
  lemma OffsetsFitExactly(pageSize: nat)
    requires MIN_PAGE_SIZE <= pageSize
    ensures OffsetsFit(pageSize) <==> pageSize <= MAX_PAGE_SIZE
  {
    if pageSize <= MAX_PAGE_SIZE {
      forall es: seq<Entry>, i: nat, e | i <= |es| && LeafFits(es, pageSize) && WithinLimits(e, pageSize)
        ensures EntriesSize(Inserted(es, i, e)) <= U16_MAX
      {
        InsertedSize(es, i, e);
      }
    } else {
      var es, e := FullLeaf(pageSize), Padded(3, MaxKvSize(pageSize));
      FullLeafFits(pageSize);
      InsertedSize(es, 3, e);
      var keys := KeysOf(Inserted(es, 3, e));
      assert keys == [[0], [1], [2], [3]];
      assert Sorted(keys);
    }
  }

  lemma {:induction false} EntriesAtMost(es: seq<Entry>, pageSize: nat)
    requires pageSize <= MAX_PAGE_SIZE && AllWithinLimits(es, pageSize)
    ensures EntriesSize(es) <= 21838 * |es|
    decreases |es|
  {
    if es != [] {
      EntriesAtMost(es[..|es| - 1], pageSize);
      assert es[|es| - 1] in es;
    }
  }

  lemma LeafSidesMonotone(es: seq<Entry>, m: nat, m': nat)
    requires m <= m' <= |es|
    ensures LeafLeft(es, m) <= LeafLeft(es, m') && LeafRight(es, m') <= LeafRight(es, m)
  {
    hide EntriesSize;
    EntriesSizeSplit(es[..m'], m);
    assert es[..m'][..m] == es[..m];
    LeafSides(es, m);
    LeafSides(es, m');
  }

  /** Three entries never reach the 16-bit limit, and more than three leave at least twelve bytes on the other side. */
  lemma HalfFits(part: seq<Entry>, rest: seq<Entry>, pageSize: nat)
    requires pageSize <= MAX_PAGE_SIZE && AllWithinLimits(part, pageSize)
    requires EntriesSize(part) + EntriesSize(rest) <= U16_MAX && |part| <= |rest| + 1
    ensures NODE_HEADER + EntriesSize(part) <= U16_MAX
  {
    hide EntriesSize, AllWithinLimits;
    if |part| <= 3 {
      EntriesAtMost(part, pageSize);
    } else {
      EntriesAtLeastFour(rest);
    }
  }

  /** Within the bound, every size the two loops of a leaf split compute fits 16 bits. */
  lemma LeafSumsFit(es: seq<Entry>, m: nat, pageSize: nat)
    requires Overgrown(es, pageSize) && pageSize <= MAX_PAGE_SIZE && m <= |es|
    ensures EntriesSize(es) <= U16_MAX
    ensures m <= |es| / 2 ==> LeafLeft(es, m) <= U16_MAX
    ensures m >= LeafDown(es, |es| / 2, pageSize) ==> LeafRight(es, m) <= U16_MAX
  {
    hide EntriesSize, LeafDown;
    var mid := |es| / 2;
    var d := LeafDown(es, mid, pageSize);
    EntriesSizeSplit(es, mid);
    HalfFits(es[..mid], es[mid..], pageSize);
    HalfFits(es[mid..], es[..mid], pageSize);
    OvergrownHasTwo(es, pageSize);
    LeafDownStops(es, mid, pageSize);
    if m <= mid {
      LeafSidesMonotone(es, m, mid);
    }
    if m >= d {
      LeafSidesMonotone(es, d, m);
    }
  }

  /* ---- Internal cuts ---- */

  function InnerSize(keys: seq<Key>): nat {
    NODE_HEADER + KeysSize(keys) + 8 * (|keys| + 1)
  }

  /** The left half keeps the keys before m and one more child than keys. */
  function InnerLeft(keys: seq<Key>, m: nat): nat
    requires m <= |keys|
  {
    InnerSize(keys[..m])
  }

  /** The right half keeps the keys after the promoted key m. */
  function InnerRight(keys: seq<Key>, m: nat): nat
    requires m < |keys|
  {
    InnerSize(keys[m + 1..])
  }

  function InnerDown(keys: seq<Key>, m: nat, pageSize: nat): (r: nat)
    requires m <= |keys|
    ensures r <= m
  {
    if m >= 1 && InnerLeft(keys, m) > pageSize then InnerDown(keys, m - 1, pageSize) else m
  }

  function InnerUp(keys: seq<Key>, m: nat, pageSize: nat): (r: nat)
    requires m < |keys|
    ensures m <= r < |keys|
    decreases |keys| - m
  {
    if m + 1 < |keys| && InnerRight(keys, m) > pageSize then InnerUp(keys, m + 1, pageSize) else m
  }

  function InnerCut(keys: seq<Key>, pageSize: nat): (r: nat)
    requires |keys| >= 2
    ensures r < |keys|
  {
    InnerUp(keys, InnerDown(keys, |keys| / 2, pageSize), pageSize)
  }

  ghost predicate KeysWithinLimits(keys: seq<Key>, pageSize: nat) {
    forall k :: k in keys ==> |k| <= MaxKvSize(pageSize)
  }

  /** An oversized internal page that was fitting before it absorbed one separator and one child. */
  ghost predicate OvergrownInner(keys: seq<Key>, pageSize: nat) {
    && MIN_PAGE_SIZE <= pageSize
    && pageSize < InnerSize(keys) <= pageSize + 10 + MaxKvSize(pageSize)
    && KeysWithinLimits(keys, pageSize)
  }

  ghost predicate GoodInnerCut(keys: seq<Key>, m: nat, pageSize: nat) {
    && 1 <= m && m + 2 <= |keys|
    && InnerLeft(keys, m) <= pageSize && InnerRight(keys, m) <= pageSize
  }

  /** The halves and the promoted key make up the whole, with one header more. */
  lemma InnerSides(keys: seq<Key>, m: nat)
    requires m < |keys|
    ensures InnerLeft(keys, m) + InnerRight(keys, m) + 2 + |keys[m]| == InnerSize(keys) + NODE_HEADER
  {
    hide KeysSize;
    KeysSizeNext(keys, m);
    KeysSizeSplit(keys, m + 1);
  }

  lemma InnerLeftNext(keys: seq<Key>, m: nat, pageSize: nat)
    requires m < |keys| && KeysWithinLimits(keys, pageSize)
    ensures InnerLeft(keys, m + 1) == InnerLeft(keys, m) + 10 + |keys[m]|
    ensures |keys[m]| <= MaxKvSize(pageSize)
  {
    hide KeysSize, MaxKvSize;
    KeysSizeNext(keys, m);
    assert keys[m] in keys;
  }

  /** Two separators of the largest size and three children always fit. */
  lemma TwoSeparatorsFit(keys: seq<Key>, pageSize: nat)
    requires MIN_PAGE_SIZE <= pageSize && |keys| <= 2 && KeysWithinLimits(keys, pageSize)
    ensures InnerSize(keys) <= pageSize
  {
    if |keys| == 2 {
      assert keys[..1] == [keys[0]];
      assert keys[0] in keys && keys[1] in keys;
    } else if |keys| == 1 {
      assert keys[..0] == [] && KeysSize(keys) == KeysSize(keys[..0]) + 2 + |keys[0]|;
      assert keys[0] in keys && |keys[0]| <= MaxKvSize(pageSize);
    } else {
      assert keys == [];
    }
  }

  lemma {:induction false} InnerDownStops(keys: seq<Key>, m: nat, pageSize: nat)
    requires OvergrownInner(keys, pageSize) && 1 <= m < |keys|
    ensures var d := InnerDown(keys, m, pageSize);
            1 <= d <= m && InnerLeft(keys, d) <= pageSize && (d < m ==> InnerRight(keys, d) <= pageSize)
    decreases m
  {
    hide KeysWithinLimits, InnerSize, InnerRight, InnerLeft;
    InnerLeftNext(keys, 0, pageSize);
    EmptyLeft(keys);
    if InnerLeft(keys, m) > pageSize {
      InnerLeftNext(keys, m - 1, pageSize);
      InnerSides(keys, m - 1);
      InnerDownStops(keys, m - 1, pageSize);
    }
  }

  lemma EmptyLeft(keys: seq<Key>)
    ensures InnerLeft(keys, 0) == NODE_HEADER + 8
  {
  }

  lemma {:induction false} InnerUpStops(keys: seq<Key>, m: nat, pageSize: nat)
    requires OvergrownInner(keys, pageSize) && 1 <= m && m + 2 <= |keys| && InnerLeft(keys, m) <= pageSize
    ensures GoodInnerCut(keys, InnerUp(keys, m, pageSize), pageSize)
    decreases |keys| - m
  {
    hide KeysWithinLimits, InnerSize, InnerRight, InnerLeft;
    InnerSides(keys, m);
    InnerLeftNext(keys, m, pageSize);
    if InnerRight(keys, m) > pageSize {
      if m + 2 == |keys| {
        LastRight(keys, pageSize);
      } else {
        InnerUpStops(keys, m + 1, pageSize);
      }
    }
  }

  /** A right half of one separator and two children fits. */
  lemma LastRight(keys: seq<Key>, pageSize: nat)
    requires |keys| >= 2 && MIN_PAGE_SIZE <= pageSize && KeysWithinLimits(keys, pageSize)
    ensures InnerRight(keys, |keys| - 2) <= pageSize
  {
    TwoSeparatorsFit(keys[|keys| - 1..], pageSize);
  }

  /** An internal split always succeeds: both halves keep a key, and both fit. */
  lemma InnerSplitSucceeds(keys: seq<Key>, pageSize: nat)
    requires OvergrownInner(keys, pageSize)
    ensures |keys| >= 3 && GoodInnerCut(keys, InnerCut(keys, pageSize), pageSize)
    ensures var d := InnerDown(keys, |keys| / 2, pageSize); d < |keys| / 2 ==> InnerCut(keys, pageSize) == d
  {
    hide KeysWithinLimits, InnerRight, InnerLeft, InnerSize;
    if |keys| <= 2 {
      TwoSeparatorsFit(keys, pageSize);
    }
    InnerDownStops(keys, |keys| / 2, pageSize);
    InnerUpStops(keys, InnerDown(keys, |keys| / 2, pageSize), pageSize);
  }

  /** A fitting internal page that absorbs one separator within the limits still fits or is overgrown. */
  lemma AbsorbFitsOrOvergrows(keys: seq<Key>, i: nat, sep: Key, pageSize: nat)
    requires MIN_PAGE_SIZE <= pageSize && InnerFits(keys, pageSize) && |sep| <= MaxKvSize(pageSize) && i <= |keys|
    ensures var grown := keys[..i] + [sep] + keys[i..];
            InnerSize(grown) == InnerSize(keys) + 10 + |sep|
            && (InnerFits(grown, pageSize) || OvergrownInner(grown, pageSize))
  {
    hide MaxKvSize;
    KeysSizeSplit(keys, i);
    KeysSizeConcat(keys[..i] + [sep], keys[i..]);
    KeysSizeConcat(keys[..i], [sep]);
    assert KeysSize([sep]) == 2 + |sep|;
    hide KeysSize;
  }

  lemma InnerSidesMonotone(keys: seq<Key>, m: nat, m': nat)
    requires m <= m' < |keys|
    ensures InnerLeft(keys, m) <= InnerLeft(keys, m') && InnerRight(keys, m') <= InnerRight(keys, m)
  {
    hide KeysSize;
    KeysSizeSplit(keys[..m'], m);
    assert keys[..m'][..m] == keys[..m];
    KeysSizeSplit(keys[m + 1..], m' - m);
    assert keys[m + 1..][m' - m..] == keys[m' + 1..];
  }

  /** Within the bound, every size the two loops of an internal split compute fits 16 bits. */
  lemma InnerSumsFit(keys: seq<Key>, m: nat, pageSize: nat)
    requires OvergrownInner(keys, pageSize) && pageSize <= MAX_PAGE_SIZE && m < |keys|
    ensures KeysSize(keys) <= U16_MAX
    ensures m <= |keys| / 2 ==> InnerLeft(keys, m) <= U16_MAX
    ensures m >= InnerDown(keys, |keys| / 2, pageSize) ==> InnerRight(keys, m) <= U16_MAX
  {
    var mid := |keys| / 2;
    var d := InnerDown(keys, mid, pageSize);
    InnerSplitSucceeds(keys, pageSize);
    InnerDownStops(keys, mid, pageSize);
    KeysAtLeastTwo(keys[..mid]);
    KeysAtLeastTwo(keys[mid + 1..]);
    hide KeysSize, KeysWithinLimits, InnerDown;
    InnerSides(keys, mid);
    if m <= mid {
      InnerSidesMonotone(keys, m, mid);
    }
    if m >= d {
      InnerSidesMonotone(keys, d, m);
    }
  }

  lemma {:induction false} InnerDownSkips(keys: seq<Key>, m: nat, k: nat, pageSize: nat)
    requires m <= |keys| && InnerDown(keys, m, pageSize) < k <= m
    ensures InnerLeft(keys, k) > pageSize
    decreases m
  {
    hide InnerSize;
    if k < m {
      InnerDownSkips(keys, m - 1, k, pageSize);
    }
  }

  lemma {:induction false} InnerUpSkips(keys: seq<Key>, m: nat, k: nat, pageSize: nat)
    requires m < |keys| && m <= k < InnerUp(keys, m, pageSize)
    ensures InnerRight(keys, k) > pageSize
    decreases |keys| - m
  {
    hide InnerSize;
    if m < k {
      InnerUpSkips(keys, m + 1, k, pageSize);
    }
  }

  /** The promoted key is the one nearest to the middle that leaves two halves that fit. */
  lemma InnerCutIsNearest(keys: seq<Key>, m: nat, pageSize: nat)
    requires OvergrownInner(keys, pageSize) && GoodInnerCut(keys, m, pageSize)
    ensures var cut, mid := InnerCut(keys, pageSize), |keys| / 2; m <= cut <= mid || mid <= cut <= m
  {
    var cut, mid := InnerCut(keys, pageSize), |keys| / 2;
    InnerSplitSucceeds(keys, pageSize);
    hide InnerLeft, InnerRight, InnerDown, InnerUp, OvergrownInner;
    if cut < mid && cut < m {
      InnerDownSkips(keys, mid, if m < mid then m else mid, pageSize);
      InnerSidesMonotone(keys, if m < mid then m else mid, m);
    } else if mid < cut && m < cut {
      InnerUpSkips(keys, mid, if m < mid then mid else m, pageSize);
      InnerSidesMonotone(keys, m, if m < mid then mid else m);
    }
  }

  /** The limit is the greatest size at which two separators and three children always fit a page. */
  lemma LimitIsGreatest(k: nat, pageSize: nat)
    requires 39 <= pageSize
    ensures 11 + 2 * (2 + k) + 3 * 8 <= pageSize <==> k <= MaxKvSize(pageSize)
  {
  }
}
