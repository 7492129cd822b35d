/** The pages field by field: which bytes of a page hold what, at which offset and in which byte order. */
module PageLayout {
  import opened ByteStrings
  import opened PageFormat
  import opened FreeListPages
  import opened HeaderPages

  /** The `width` bytes at this offset are the number's digits in base 256, the least significant first. */
  ghost predicate Holds(b: Bytes, at: nat, width: nat, x: nat) {
    at + width <= |b| && forall i :: 0 <= i < width ==> b[at + i] == x / Capacity(i) % 256
  }

  ghost predicate ZeroFrom(b: Bytes, at: nat) {
    forall i :: at <= i < |b| ==> b[i] == 0
  }

  lemma HoldsLe(b: Bytes, at: nat, width: nat, x: nat)
    requires at + width <= |b| && b[at..at + width] == Le(x, width)
    ensures Holds(b, at, width, x)
  {
    forall i | 0 <= i < width
      ensures b[at + i] == x / Capacity(i) % 256
    {
      LeDigits(x, width, i);
      assert b[at + i] == b[at..at + width][i];
    }
  }

  /** An entry lies here: key length, key, value length, value. */
  ghost predicate EntryLies(b: Bytes, at: nat, e: Entry) {
    && Holds(b, at, 2, |e.key|)
    && at + 4 + |e.key| + |e.value| <= |b|
    && b[at + 2..at + 2 + |e.key|] == e.key
    && Holds(b, at + 2 + |e.key|, 2, |e.value|)
    && b[at + 4 + |e.key|..at + 4 + |e.key| + |e.value|] == e.value
  }

  /** A separator lies here: its length, then its bytes. */
  ghost predicate KeyLies(b: Bytes, at: nat, k: Key) {
    && Holds(b, at, 2, |k|)
    && at + 2 + |k| <= |b|
    && b[at + 2..at + 2 + |k|] == k
  }

  /** What a stretch holds at an offset, the bytes around it hold there. */
  lemma PartOfBody(b: Bytes, u: Bytes, at: nat, lo: nat, part: Bytes)
    requires at + |u| <= |b| && b[at..at + |u|] == u && lo + |part| <= |u| && u[lo..lo + |part|] == part
    ensures b[at + lo..at + lo + |part|] == part
  {
    SubSlice(b, at, |u|, lo, lo + |part|);
  }

  lemma EntryPlaced(b: Bytes, at: nat, e: Entry)
    requires at + |EntryBytes(e)| <= |b| && b[at..at + |EntryBytes(e)|] == EntryBytes(e)
    ensures EntryLies(b, at, e)
  {
    hide Le, Holds, EntryBytes;
    var u, k := EntryBytes(e), |e.key|;
    EntryFields(e);
    PartOfBody(b, u, at, 0, Le(k, 2));
    PartOfBody(b, u, at, 2, e.key);
    PartOfBody(b, u, at, 2 + k, Le(|e.value|, 2));
    PartOfBody(b, u, at, 4 + k, e.value);
    HoldsLe(b, at, 2, k);
    HoldsLe(b, at + 2 + k, 2, |e.value|);
  }

  lemma EntryFields(e: Entry)
    ensures var u, k, v := EntryBytes(e), |e.key|, |e.value|;
            && |u| == 4 + k + v && u[0..2] == Le(k, 2) && u[2..2 + k] == e.key
            && u[2 + k..2 + k + 2] == Le(v, 2) && u[4 + k..4 + k + v] == e.value
  {
    hide Le;
  }

  lemma KeyPlaced(b: Bytes, at: nat, k: Key)
    requires at + |KeyBytes(k)| <= |b| && b[at..at + |KeyBytes(k)|] == KeyBytes(k)
    ensures KeyLies(b, at, k)
  {
    hide Le, Holds, KeyBytes;
    KeyFields(k);
    PartOfBody(b, KeyBytes(k), at, 0, Le(|k|, 2));
    PartOfBody(b, KeyBytes(k), at, 2, k);
    HoldsLe(b, at, 2, |k|);
  }

  lemma KeyFields(k: Key)
    ensures var u := KeyBytes(k); |u| == 2 + |k| && u[0..2] == Le(|k|, 2) && u[2..2 + |k|] == k
  {
    hide Le;
  }

  lemma EntryInside(b: Bytes, at: nat, u: Bytes, lo: nat, e: Entry)
    requires at + |u| <= |b| && b[at..at + |u|] == u
    requires lo + EntrySize(e) <= |u| && u[lo..lo + EntrySize(e)] == EntryBytes(e)
    ensures EntryLies(b, at + lo, e)
  {
    hide EntryLies, EntrySize, EntryBytes;
    PartOfBody(b, u, at, lo, EntryBytes(e));
    EntryPlaced(b, at + lo, e);
  }

  lemma KeyInside(b: Bytes, at: nat, u: Bytes, lo: nat, k: Key)
    requires at + |u| <= |b| && b[at..at + |u|] == u && lo + 2 + |k| <= |u| && u[lo..lo + 2 + |k|] == KeyBytes(k)
    ensures KeyLies(b, at + lo, k)
  {
    hide KeyLies, KeyBytes;
    PartOfBody(b, u, at, lo, KeyBytes(k));
    KeyPlaced(b, at + lo, k);
  }

  /** The ids lie here one after the other, eight bytes each. */
  ghost predicate IdsLie(b: Bytes, at: nat, ids: seq<PageId>) {
    forall i :: 0 <= i < |ids| ==> Holds(b, at + 8 * i, 8, ids[i])
  }

  lemma {:induction false} IdAt(ids: seq<PageId>, i: nat)
    requires i < |ids|
    ensures IdsBytes(ids)[8 * i..8 * i + 8] == Le(ids[i], 8)
    decreases |ids|
  {
    hide Le;
    var last := |ids| - 1;
    var front, own := IdsBytes(ids[..last]), Le(ids[last], 8);
    assert IdsBytes(ids) == front + own;
    if i < last {
      IdAt(ids[..last], i);
      hide IdsBytes;
      Front(front, own, 8 * i, 8 * i + 8);
    }
  }

  lemma Front(x: Bytes, y: Bytes, lo: nat, hi: nat)
    requires lo <= hi <= |x|
    ensures (x + y)[lo..hi] == x[lo..hi]
  {
  }

  lemma IdsPlaced(b: Bytes, at: nat, ids: seq<PageId>)
    requires at + 8 * |ids| <= |b| && b[at..at + 8 * |ids|] == IdsBytes(ids)
    ensures IdsLie(b, at, ids)
  {
    hide Le, IdsBytes, Holds;
    forall i | 0 <= i < |ids|
      ensures Holds(b, at + 8 * i, 8, ids[i])
    {
      IdAt(ids, i);
      PartOfBody(b, IdsBytes(ids), at, 8 * i, Le(ids[i], 8));
      HoldsLe(b, at + 8 * i, 8, ids[i]);
    }
  }

  /** A node page starts with its tag, its id and its key count, and is zero behind its contents. */
  ghost predicate NodeLies(b: Bytes, tag: Byte, id: PageId, count: nat, size: nat) {
    |b| >= 11 && b[0] == tag && Holds(b, 1, 8, id) && Holds(b, 9, 2, count) && ZeroFrom(b, size)
  }

  lemma NodePlaced(c: Content, id: PageId, pageSize: nat)
    requires ContentSize(c) <= pageSize
    ensures var b := PageBytes(c, id, pageSize);
            && NodeLies(b, Tag(c), id, KeyCount(c), ContentSize(c))
            && b[NODE_HEADER..NODE_HEADER + |Body(c)|] == Body(c)
  {
    hide Le, Holds, Body;
    var b, h := PageBytes(c, id, pageSize), NodeHeader(c, id);
    assert b[1..9] == h[1..9] == Le(id, 8);
    assert b[9..11] == h[9..11] == Le(KeyCount(c), 2);
    HoldsLe(b, 1, 8, id);
    HoldsLe(b, 9, 2, KeyCount(c));
  }

  /** A leaf page: tag 1, id, entry count, and the entries from byte 11 on, each right behind the one before. */
  lemma LeafLayout(es: seq<Entry>, id: PageId, pageSize: nat)
    requires 11 + EntriesSize(es) <= pageSize
    ensures var b := PageBytes(LeafContent(es), id, pageSize);
            && NodeLies(b, 0x01, id, |es|, 11 + EntriesSize(es))
            && forall i :: 0 <= i < |es| ==> EntryLies(b, 11 + EntriesSize(es[..i]), es[i])
  {
    hide EntriesBytes, EntriesSize, EntryLies, NodeLies, PageBytes, Unpadded, Body;
    BodyOfLeaf(es);
    NodePlaced(LeafContent(es), id, pageSize);
    EntriesPlaced(PageBytes(LeafContent(es), id, pageSize), NODE_HEADER, es);
  }

  lemma BodyOfLeaf(es: seq<Entry>)
    ensures Body(LeafContent(es)) == EntriesBytes(es)
  {
  }

  lemma EntriesPlaced(b: Bytes, at: nat, es: seq<Entry>)
    requires at + |EntriesBytes(es)| <= |b| && b[at..at + |EntriesBytes(es)|] == EntriesBytes(es)
    ensures forall i :: 0 <= i < |es| ==> EntryLies(b, at + EntriesSize(es[..i]), es[i])
  {
    hide EntryBytes, EntriesBytes, EntriesSize, EntryLies;
    forall i | 0 <= i < |es|
      ensures EntryLies(b, at + EntriesSize(es[..i]), es[i])
    {
      EntryAt(es, i);
      EntryInside(b, at, EntriesBytes(es), EntriesSize(es[..i]), es[i]);
    }
  }

  lemma TwoParts(b: Bytes, at: nat, x: Bytes, y: Bytes)
    requires at + |x| + |y| <= |b| && b[at..at + |x| + |y|] == x + y
    ensures b[at..at + |x|] == x && b[at + |x|..at + |x| + |y|] == y
  {
    var u := x + y;
    assert u[..|x|] == x && u[|x|..] == y;
    SubSlice(b, at, |u|, 0, |x|);
    SubSlice(b, at, |u|, |x|, |u|);
  }

  lemma SeparatorsPlaced(b: Bytes, at: nat, keys: seq<Key>)
    requires at + |KeysBytes(keys)| <= |b| && b[at..at + |KeysBytes(keys)|] == KeysBytes(keys)
    ensures forall i :: 0 <= i < |keys| ==> KeyLies(b, at + KeysSize(keys[..i]), keys[i])
  {
    hide KeyBytes, KeysBytes, KeysSize, KeyLies;
    forall i | 0 <= i < |keys|
      ensures KeyLies(b, at + KeysSize(keys[..i]), keys[i])
    {
      KeyAt(keys, i);
      KeyInside(b, at, KeysBytes(keys), KeysSize(keys[..i]), keys[i]);
    }
  }

  /** An internal page: tag 2, id, separator count, the separators from byte 11 on and behind them the child ids. */
  lemma InnerLayout(keys: seq<Key>, children: seq<PageId>, id: PageId, pageSize: nat)
    requires 11 + KeysSize(keys) + 8 * |children| <= pageSize
    ensures var b := PageBytes(InnerContent(keys, children), id, pageSize);
            && NodeLies(b, 0x02, id, |keys|, 11 + KeysSize(keys) + 8 * |children|)
            && (forall i :: 0 <= i < |keys| ==> KeyLies(b, 11 + KeysSize(keys[..i]), keys[i]))
            && IdsLie(b, 11 + KeysSize(keys), children)
  {
    hide KeysBytes, IdsBytes, KeysSize, KeyLies, NodeLies, PageBytes, IdsLie, Unpadded, Body;
    BodyOfInner(keys, children);
    NodePlaced(InnerContent(keys, children), id, pageSize);
    InnerPlaced(PageBytes(InnerContent(keys, children), id, pageSize), NODE_HEADER, keys, children);
  }

  lemma BodyOfInner(keys: seq<Key>, children: seq<PageId>)
    ensures Body(InnerContent(keys, children)) == KeysBytes(keys) + IdsBytes(children)
  {
  }

  lemma InnerPlaced(b: Bytes, at: nat, keys: seq<Key>, children: seq<PageId>)
    requires at + |KeysBytes(keys)| + |IdsBytes(children)| <= |b|
    requires b[at..at + |KeysBytes(keys)| + |IdsBytes(children)|] == KeysBytes(keys) + IdsBytes(children)
    ensures forall i :: 0 <= i < |keys| ==> KeyLies(b, at + KeysSize(keys[..i]), keys[i])
    ensures IdsLie(b, at + KeysSize(keys), children)
  {
    hide KeysBytes, KeysSize, IdsBytes, KeyLies, IdsLie;
    TwoParts(b, at, KeysBytes(keys), IdsBytes(children));
    SeparatorsPlaced(b, at, keys);
    IdsPlaced(b, at + KeysSize(keys), children);
  }

  /** A free-list page: tag 3, id, next page, id count, and the ids from byte 19 on. */
  lemma FreeListLayout(id: PageId, next: PageId, ids: seq<PageId>, pageSize: nat)
    requires 19 + 8 * |ids| <= pageSize && |ids| <= U16_MAX
    ensures var b := FreeListBytes(id, next, ids, pageSize);
            && b[0] == 0x03 && Holds(b, 1, 8, id) && Holds(b, 9, 8, next) && Holds(b, 17, 2, |ids|)
            && IdsLie(b, 19, ids) && ZeroFrom(b, 19 + 8 * |ids|)
  {
    hide Le, IdsBytes, Holds, IdsLie;
    var b, u := FreeListBytes(id, next, ids, pageSize), FreeListUnpadded(id, next, ids);
    assert b[1..9] == u[1..9] == Le(id, 8);
    assert b[9..17] == u[9..17] == Le(next, 8);
    assert b[17..19] == u[17..19] == Le(|ids|, 2);
    assert b[19..19 + 8 * |ids|] == u[19..] == IdsBytes(ids);
    HoldsLe(b, 1, 8, id);
    HoldsLe(b, 9, 8, next);
    HoldsLe(b, 17, 2, |ids|);
    IdsPlaced(b, 19, ids);
  }

  /** The header page: tag 0x2A, "HWBTREE1", version 2, page size, root, next page, free-list head and count. */
  lemma HeaderLayout(h: Header, pageSize: nat)
    requires pageSize >= 49
    ensures var b := HeaderPage(h, pageSize);
            && b[0] == 0x2A && b[1..9] == [0x48, 0x57, 0x42, 0x54, 0x52, 0x45, 0x45, 0x31]
            && Holds(b, 9, 4, 2) && Holds(b, 13, 4, h.pageSize) && Holds(b, 17, 8, h.rootId)
            && Holds(b, 25, 8, h.nextPageId) && Holds(b, 33, 8, h.freeListHead) && Holds(b, 41, 8, h.freeCount)
            && ZeroFrom(b, 49)
  {
    hide Le, Holds;
    var b := HeaderPage(h, pageSize);
    HeaderSlices(h, pageSize);
    HoldsLe(b, 9, 4, VERSION);
    HoldsLe(b, 13, 4, h.pageSize);
    HoldsLe(b, 17, 8, h.rootId);
    HoldsLe(b, 25, 8, h.nextPageId);
    HoldsLe(b, 33, 8, h.freeListHead);
    HoldsLe(b, 41, 8, h.freeCount);
  }

  /** A page begins as a header page of some version does. */
  ghost predicate LooksLikeHeader(b: Bytes) {
    |b| >= 49 && b[0] == 0x2A && b[1..9] == [0x48, 0x57, 0x42, 0x54, 0x52, 0x45, 0x45, 0x31]
  }

  /** Only the tag and the signature make a page a header, and only version 2 is read; another is reported as it is found. */
  lemma HeaderIsRecognised(b: Bytes, version: nat)
    requires LooksLikeHeader(b) ==> version < 0x1_0000_0000 && b[9..13] == Le(version, 4)
    ensures FromBytes(b) == NotAHeader <==> !LooksLikeHeader(b)
    ensures LooksLikeHeader(b) ==> (FromBytes(b).Decoded? <==> version == 2)
    ensures LooksLikeHeader(b) && version != 2 ==> FromBytes(b) == VersionMismatch(version)
  {
    hide FromLe, Le;
    CapacityValues();
    LeRoundTrip(version, 4);
  }
}
