/**
 Beyond the page-size bound: what a leaf's 16-bit offsets do there. Up to 43711 bytes a page that has outgrown itself can
 at most have its end recorded wrongly; from 43712 on an entry's start wraps too, and reading it finds another entry.
 */
module WrappedOffsets {
  import opened ByteStrings
  import opened PageFormat
  import opened SplitPoints
  import opened KeySearch
  import opened LeafNodes

  /** The largest page size for which the start of every entry of a grown leaf can be recorded. */
  const MAX_READABLE_SIZE: nat := 43711

  /** No put into a fitting, sorted leaf of this page size makes an entry start past what a `u16` can say. */
  ghost predicate StartsFit(pageSize: nat) {
    forall es: seq<Entry>, e ::
      LeafFits(es, pageSize) && SortedEntries(es) && WithinLimits(e, pageSize)
      ==> StartsRecorded(Upserted(es, e))
  }

  ghost predicate StartsRecorded(es: seq<Entry>) {
    forall i :: 0 <= i < |es| ==> EntriesSize(es[..i]) <= U16_MAX
  }

  lemma UpsertedSize(es: seq<Entry>, e: Entry)
    ensures EntriesSize(Upserted(es, e)) <= EntriesSize(es) + EntrySize(e)
  {
    hide EntriesSize, Rank;
    var i := Search(es, e.key).idx;
    InsertedSize(es, i, e);
    if Search(es, e.key).Ok? {
      ReplacedSize(es, i, e);
    }
  }

  /** In a sorted leaf every entry but the first takes at least five bytes. */
  lemma StartBound(es: seq<Entry>, i: nat)
    requires SortedEntries(es) && 0 < i < |es|
    ensures EntriesSize(es[..i]) + 5 <= EntriesSize(es)
  {
    hide EntriesSize;
    assert Less(es[0].key, es[i].key);
    EntriesSizeNext(es, i);
    EntriesSizeSplit(es, i + 1);
  }

  lemma StartsWithinBound(es: seq<Entry>, e: Entry, pageSize: nat)
    requires MIN_PAGE_SIZE <= pageSize <= MAX_READABLE_SIZE
    requires LeafFits(es, pageSize) && SortedEntries(es) && WithinLimits(e, pageSize)
    ensures StartsRecorded(Upserted(es, e))
  {
    hide EntriesSize, Upserted, SortedEntries;
    var grown := Upserted(es, e);
    UpsertedSize(es, e);
    UpsertedSorted(es, e);
    forall i | 0 <= i < |grown|
      ensures EntriesSize(grown[..i]) <= U16_MAX
    {
      if i == 0 {
        NothingBefore(grown);
      } else {
        StartBound(grown, i);
      }
    }
  }

  lemma NothingBefore(es: seq<Entry>)
    ensures EntriesSize(es[..0]) == 0
  {
  }

  /* ---- A leaf whose last entry starts at byte 65536 ---- */

  /** The largest entry there is, as an entry of the leaf. */
  function Largest(pageSize: nat): nat {
    4 + MaxKvSize(pageSize)
  }

  /** What the leaf holds before the put of `Padded(0, ..)`. */
  function BeforePut(pageSize: nat): seq<Entry>
    requires MAX_READABLE_SIZE < pageSize <= U16_MAX
  {
    var size := Largest(pageSize);
    [Padded(1, size - 4), Padded(2, 65516 - 2 * size), Padded(3, 12), Padded(4, 1)]
  }

  function FirstOne(pageSize: nat): Entry
    requires MAX_READABLE_SIZE < pageSize <= U16_MAX
  {
    Padded(0, Largest(pageSize) - 4)
  }

  lemma Sizes(pageSize: nat)
    requires MAX_READABLE_SIZE < pageSize <= U16_MAX
    ensures LeafFits(BeforePut(pageSize), pageSize) && SortedEntries(BeforePut(pageSize))
    ensures WithinLimits(FirstOne(pageSize), pageSize)
    ensures Upserted(BeforePut(pageSize), FirstOne(pageSize)) == [FirstOne(pageSize)] + BeforePut(pageSize)
    ensures EntriesSize(([FirstOne(pageSize)] + BeforePut(pageSize))[..4]) == 65536
  {
    var es, e := BeforePut(pageSize), FirstOne(pageSize);
    FourSizes(es[0], es[1], es[2], es[3]);
    FourSizes(e, es[0], es[1], es[2]);
    assert es == [es[0], es[1], es[2], es[3]];
    assert ([e] + es)[..4] == [e, es[0], es[1], es[2]];
    hide EntriesSize;
    assert Rank(es, e.key) == 0;
    assert es[..0] == [] && es[0..] == es;
  }

  lemma FourSizes(a: Entry, b: Entry, c: Entry, d: Entry)
    ensures EntriesSize([a, b, c, d]) == EntrySize(a) + EntrySize(b) + EntrySize(c) + EntrySize(d)
  {
    hide EntrySize;
    assert [a, b, c, d][..3] == [a, b, c] && [a, b, c][..2] == [a, b] && [a, b][..1] == [a] && [a][..0] == [];
    assert EntriesSize([a]) == EntrySize(a);
    assert EntriesSize([a, b]) == EntriesSize([a]) + EntrySize(b);
    assert EntriesSize([a, b, c]) == EntriesSize([a, b]) + EntrySize(c);
  }

  /** The first entry reads back from offset 0 whatever follows. */
  lemma FirstReads(e: Entry, rest: seq<Entry>)
    requires |e.key| <= U16_MAX && |e.value| <= U16_MAX
    ensures var b := EntriesBytes([e] + rest);
            ValInRange(b, 0) && KeyFrom(b, 0) == e.key && ValFrom(b, 0) == e.value
  {
    hide EntriesBytes, EntryBytes, ValInRange, KeyFrom, ValFrom;
    EntriesBytesConcat([e], rest);
    OneEntry(e);
    var b := EntriesBytes([e] + rest);
    assert b[0..0 + EntrySize(e)] == EntryBytes(e);
    LeafNodes.Fields(b, 0, e);
  }

  lemma OneEntry(e: Entry)
    ensures EntriesBytes([e]) == EntryBytes(e)
  {
    hide EntryBytes;
    assert [e][..0] == [];
    assert EntriesBytes([]) == [];
  }

  /**
   From 43712 bytes on, some put into a fitting, sorted leaf makes its last entry start at 65536, which is recorded as 0. In
   whatever reads the grown leaf through its index, as the split does, the last entry is then the first over again.
   */
  lemma LastEntryMisread(pageSize: nat, starts: seq<nat>) returns (es: seq<Entry>, e: Entry)
    requires MAX_READABLE_SIZE < pageSize <= U16_MAX
    ensures LeafFits(es, pageSize) && SortedEntries(es) && WithinLimits(e, pageSize)
    ensures !StartsRecorded(Upserted(es, e))
    ensures var grown, b := Upserted(es, e), EntriesBytes(Upserted(es, e));
            var last := |grown| - 1;
            && last > 0 && grown[0].key != grown[last].key
            && (WrappedIndexOf(starts, grown) ==>
                  && ValInRange(b, starts[last])
                  && KeyFrom(b, starts[last]) == grown[0].key && ValFrom(b, starts[last]) == grown[0].value)
  {
    hide EntriesSize, EntriesBytes, Upserted, SortedEntries, ValInRange, KeyFrom, ValFrom;
    es, e := BeforePut(pageSize), FirstOne(pageSize);
    Sizes(pageSize);
    FirstReads(e, es);
    var grown := [e] + es;
    assert !(EntriesSize(grown[..4]) <= U16_MAX);
    if WrappedIndexOf(starts, grown) {
      assert starts[4] == AsU16(EntriesSize(grown[..4])) == 0;
    }
  }

  /** The threshold is exact. */
  lemma StartsFitExactly(pageSize: nat)
    requires MIN_PAGE_SIZE <= pageSize <= U16_MAX
    ensures StartsFit(pageSize) <==> pageSize <= MAX_READABLE_SIZE
  {
    hide LeafFits, SortedEntries, WithinLimits, StartsRecorded, Upserted;
    if pageSize <= MAX_READABLE_SIZE {
      forall es: seq<Entry>, e | LeafFits(es, pageSize) && SortedEntries(es) && WithinLimits(e, pageSize)
        ensures StartsRecorded(Upserted(es, e))
      {
        StartsWithinBound(es, e, pageSize);
      }
    } else {
      var es, e := LastEntryMisread(pageSize, []);
    }
  }
}
