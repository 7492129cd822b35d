/** Leaf pages: a byte buffer of entries with an in-memory index of where each starts. */
module LeafNodes {
  import opened Wrappers
  import opened ByteStrings
  import opened PageFormat
  import opened SplitPoints
  import opened KeySearch

  class LeafNode {
    var id: PageId
    var entries: Bytes
    var entryStart: seq<nat>
    ghost var contents: seq<Entry>

    ghost predicate Valid()
      reads this
    {
      && entries == EntriesBytes(contents) && EntriesSize(contents) <= U16_MAX
      && IndexOf(entryStart, contents)
    }

    /** What pushing keeps whatever the sizes: each start is recorded as a `u16`, wrapped past 65535 bytes. */
    ghost predicate Laid()
      reads this
    {
      entries == EntriesBytes(contents) && WrappedIndexOf(entryStart, contents)
    }

    constructor Empty()
      ensures Valid() && contents == [] && id == 0
    {
      id, entries, entryStart, contents := 0, [], [0], [];
    }

    /** `LeafNode::decode`; the type and id checks are the source's debug assertions. */
    constructor Decode(expectedId: PageId, bytes: Bytes)
      requires Parse(expectedId, bytes).Some? && bytes[0] == PAGE_TYPE_LEAF && |bytes| <= U16_MAX
      ensures Valid() && id == expectedId
      ensures Parse(expectedId, bytes) == Some(LeafContent(contents))
    {
      hide Le, FromLe, ParseEntries, EntriesBytes, EntriesSize, Parsing;
      var nkeys := FromLe(bytes[9..11]);
      var all := bytes[NODE_HEADER..];
      var starts: seq<nat> := [0];
      var pos: nat := 0;
      ghost var done := [];
      ParsingStarts(all, nkeys);
      for i := 0 to nkeys
        invariant Parsing(all, nkeys, i, pos, done) && |done| == i && pos <= |all|
        invariant IndexOf(starts, done)
      {
        ghost var e := ParsingGoesOn(all, nkeys, i, pos, done);
        var klen := FromLe(all[pos..pos + 2]);
        var vpos := pos + 2 + klen;
        var vlen := FromLe(all[vpos..vpos + 2]);
        pos := AsU16(pos + 4 + klen + vlen);
        IndexGrows(starts, done, e, pos);
        starts := starts + [pos];
        done := done + [e];
      }
      ParsingEnds(all, nkeys, pos, done);
      id, entries, entryStart, contents := FromLe(bytes[1..9]), all[..pos], starts, done;
    }

    function NKeys(): (r: nat)
      reads this
      requires Valid()
      ensures r == |contents|
    {
      |entryStart| - 1
    }

    function GetKey(idx: nat): (r: Key)
      reads this
      requires Valid() && idx < NKeys()
      ensures r == contents[idx].key
    {
      FieldsAt(contents, idx);
      KeyFrom(entries, entryStart[idx])
    }

    function GetVal(idx: nat): (r: Value)
      reads this
      requires Valid() && idx < NKeys()
      ensures r == contents[idx].value
    {
      FieldsAt(contents, idx);
      ValFrom(entries, entryStart[idx])
    }

    function NBytes(): (r: nat)
      reads this
      requires Valid()
      ensures r == ContentSize(LeafContent(contents))
    {
      NODE_HEADER + |entries|
    }

    /** The size of a left half of m entries, in the source's 16-bit arithmetic. */
    function LeftBytes(m: nat): (r: nat)
      reads this
      requires Valid() && m <= NKeys()
      ensures r == AsU16(LeafLeft(contents, m))
    {
      AsU16(NODE_HEADER + entryStart[m])
    }

    /** The size of the right half after m entries, in the source's 16-bit arithmetic. */
    function RightBytes(m: nat): (r: nat)
      reads this
      requires Valid() && m <= NKeys()
      ensures r == AsU16(LeafRight(contents, m))
    {
      EntriesSizeSplit(contents, m);
      AsU16(NODE_HEADER + (AsU16(|entries|) - entryStart[m]))
    }

    /** The offset is stored as a `u16`: past that size the buffer is still right, but no longer its index. */
    method Push(key: Key, val: Value)
      requires Laid() && (contents == [] || Less(contents[|contents| - 1].key, key))
      modifies this
      ensures Laid() && contents == old(contents) + [Entry(key, val)] && id == old(id)
      ensures EntriesSize(contents) <= U16_MAX ==> Valid()
    {
      hide Less, Le, EntriesSize, EntriesBytes;
      ghost var e := Entry(key, val);
      ghost var before := contents;
      LeTruncates(|key|);
      LeTruncates(|val|);
      entries := entries + Le(AsU16(|key|), 2);
      entries := entries + key;
      entries := entries + Le(AsU16(|val|), 2);
      entries := entries + val;
      entryStart := entryStart + [AsU16(|entries|)];
      contents := contents + [e];
      PushedEntry(before, e);
      assert entries == EntriesBytes(before) + EntryBytes(e);
      WrappedIndexGrows(old(entryStart), before, e, AsU16(|entries|));
      if EntriesSize(contents) <= U16_MAX {
        NothingWraps(entryStart, contents);
      }
    }

    /** Appends a range of another leaf's entries. */
    method PushRange(src: LeafNode, from: nat, to: nat)
      requires src != this && src.Valid() && from <= to <= src.NKeys()
      requires Valid() && EntriesSize(contents + src.contents[from..to]) <= U16_MAX
      requires SortedEntries(contents + src.contents[from..to])
      modifies this
      ensures Valid() && contents == old(contents) + src.contents[from..to] && id == old(id)
    {
      hide EntriesSize, Less, SortedEntries, EntrySize, IndexOf, LeafNode.Valid;
      ghost var whole := contents + src.contents[from..to];
      ghost var n := |contents|;
      for i := from to to
        invariant Valid() && contents == whole[..n + i - from] && id == old(id)
      {
        NextPush(whole, n + i - from);
        LaidOut(this);
        assert whole[n + i - from] == src.contents[i];
        Push(src.GetKey(i), src.GetVal(i));
      }
      assert whole[..n + to - from] == whole;
    }

    /** The page's bytes: header, entries, and zeros to the end. */
    method ToBytes(pageId: PageId, pageSize: nat) returns (r: Bytes)
      requires Valid() && NBytes() <= pageSize
      ensures r == PageBytes(LeafContent(contents), pageId, pageSize)
    {
      hide EntriesBytes, EntriesSize, Le;
      var buf := new Byte[pageSize](_ => 0);
      assert buf[..] == Zeros(pageSize);
      EntriesAtLeastFour(contents);
      StampHeader(buf, PAGE_TYPE_LEAF, pageId, NKeys());
      assert buf[..] == NodeHeader(LeafContent(contents), pageId) + Zeros(pageSize - NODE_HEADER);
      CopyNext(buf, NODE_HEADER, entries, NodeHeader(LeafContent(contents), pageId));
      assert buf[..] == Unpadded(LeafContent(contents), pageId) + Zeros(pageSize - NBytes());
      r := buf[..];
    }
  }

  predicate KeyInRange(b: Bytes, start: nat) {
    start + 2 <= |b| && start + 2 + FromLe(b[start..start + 2]) <= |b|
  }

  /** The key of the entry that begins at this offset. */
  function KeyFrom(b: Bytes, start: nat): Key
    requires KeyInRange(b, start)
  {
    var klen := FromLe(b[start..start + 2]);
    b[start + 2..start + 2 + klen]
  }

  predicate ValInRange(b: Bytes, start: nat) {
    && KeyInRange(b, start)
    && var vstart := start + 2 + FromLe(b[start..start + 2]);
       vstart + 2 <= |b| && vstart + 2 + FromLe(b[vstart..vstart + 2]) <= |b|
  }

  /** The value of the entry that begins at this offset. */
  function ValFrom(b: Bytes, start: nat): Value
    requires ValInRange(b, start)
  {
    var klen := FromLe(b[start..start + 2]);
    var vstart := start + 2 + klen;
    var vlen := FromLe(b[vstart..vstart + 2]);
    b[vstart + 2..vstart + 2 + vlen]
  }

  /** The decoder's loop has read `done`, filling the buffer up to `pos`, and the rest still parses. */
  ghost predicate Parsing(all: Bytes, n: nat, i: nat, pos: nat, done: seq<Entry>) {
    && i <= n && pos <= |all| && pos == EntriesSize(done) && all[..pos] == EntriesBytes(done)
    && ParseEntries(all[pos..], n - i).Some?
    && ParseEntries(all, n) == Some(done + ParseEntries(all[pos..], n - i).value)
  }

  ghost predicate IndexOf(starts: seq<nat>, es: seq<Entry>) {
    |starts| == |es| + 1 && forall i :: 0 <= i <= |es| ==> starts[i] == EntriesSize(es[..i])
  }

  ghost predicate WrappedIndexOf(starts: seq<nat>, es: seq<Entry>) {
    |starts| == |es| + 1 && forall i :: 0 <= i <= |es| ==> starts[i] == AsU16(EntriesSize(es[..i]))
  }

  lemma WrappedIndexGrows(starts: seq<nat>, es: seq<Entry>, e: Entry, pos: nat)
    requires WrappedIndexOf(starts, es) && pos == AsU16(EntriesSize(es) + EntrySize(e))
    ensures WrappedIndexOf(starts + [pos], es + [e])
  {
    hide EntriesSize, EntrySize, EntriesBytes, EntryBytes, AsU16;
    PushedEntry(es, e);
    var all := es + [e];
    forall i | 0 <= i <= |all|
      ensures (starts + [pos])[i] == AsU16(EntriesSize(all[..i]))
    {
      if i <= |es| {
        assert (starts + [pos])[i] == starts[i] && all[..i] == es[..i];
      } else {
        assert (starts + [pos])[i] == pos && all[..i] == all;
      }
    }
  }

  /** Up to 65535 bytes no start wraps. */
  lemma NothingWraps(starts: seq<nat>, es: seq<Entry>)
    requires EntriesSize(es) <= U16_MAX
    ensures WrappedIndexOf(starts, es) <==> IndexOf(starts, es)
  {
    hide EntriesSize;
    forall i | 0 <= i <= |es|
      ensures AsU16(EntriesSize(es[..i])) == EntriesSize(es[..i])
    {
      EntriesSizeSplit(es, i);
    }
  }

  lemma LaidOut(node: LeafNode)
    requires node.Valid()
    ensures node.Laid()
  {
    NothingWraps(node.entryStart, node.contents);
  }

  lemma IndexGrows(starts: seq<nat>, es: seq<Entry>, e: Entry, pos: nat)
    requires IndexOf(starts, es) && pos == EntriesSize(es) + EntrySize(e)
    ensures IndexOf(starts + [pos], es + [e])
  {
    hide EntriesSize, EntrySize, EntriesBytes, EntryBytes;
    PushedEntry(es, e);
    var all := es + [e];
    forall i | 0 <= i <= |all|
      ensures (starts + [pos])[i] == EntriesSize(all[..i])
    {
      if i <= |es| {
        assert (starts + [pos])[i] == starts[i] && all[..i] == es[..i];
      } else {
        assert (starts + [pos])[i] == pos && all[..i] == all;
      }
    }
  }

  lemma ParsingStarts(all: Bytes, n: nat)
    requires ParseEntries(all, n).Some?
    ensures Parsing(all, n, 0, 0, [])
  {
    assert all[0..] == all;
    var es := ParseEntries(all, n).value;
    assert [] + es == es;
  }

  lemma ParsingGoesOn(all: Bytes, n: nat, i: nat, pos: nat, done: seq<Entry>) returns (e: Entry)
    requires Parsing(all, n, i, pos, done) && i < n
    ensures pos == EntriesSize(done) && pos + EntrySize(e) <= |all|
    ensures FromLe(all[pos..pos + 2]) == |e.key|
    ensures FromLe(all[pos + 2 + |e.key|..pos + 4 + |e.key|]) == |e.value|
    ensures Parsing(all, n, i + 1, pos + EntrySize(e), done + [e])
  {
    hide Le, FromLe, EntriesBytes, EntriesSize, EntryBytes;
    var rest := all[pos..];
    e := FirstEntry(rest).value;
    FirstEntryBytes(rest);
    PushedEntry(done, e);
    var size := EntrySize(e);
    assert rest[size..] == all[pos + size..];
    assert all[..pos + size] == all[..pos] + rest[..size];
    var tail := ParseEntries(all[pos + size..], n - i - 1).value;
    assert done + ([e] + tail) == done + [e] + tail;
    assert rest[..2] == all[pos..pos + 2];
    assert rest[|e.key| + 2..|e.key| + 4] == all[pos + 2 + |e.key|..pos + 4 + |e.key|];
  }

  lemma ParsingEnds(all: Bytes, n: nat, pos: nat, done: seq<Entry>)
    requires Parsing(all, n, n, pos, done)
    ensures ParseEntries(all, n) == Some(done) && all[..pos] == EntriesBytes(done) && pos == EntriesSize(done)
  {
    assert done + [] == done;
  }

  /** At the offset of entry `i` the encoding reads back its key and value. */
  lemma FieldsAt(es: seq<Entry>, i: nat)
    requires i < |es| && EntriesSize(es) <= U16_MAX
    ensures var b, start := EntriesBytes(es), EntriesSize(es[..i]);
            ValInRange(b, start) && KeyFrom(b, start) == es[i].key && ValFrom(b, start) == es[i].value
  {
    hide EntriesBytes, EntriesSize, EntryBytes, ValInRange, KeyInRange, KeyFrom, ValFrom;
    EntryAt(es, i);
    EntriesSizeNext(es, i);
    EntriesSizeSplit(es, i + 1);
    Fields(EntriesBytes(es), EntriesSize(es[..i]), es[i]);
  }

  lemma Fields(b: Bytes, start: nat, e: Entry)
    requires start + EntrySize(e) <= |b| && b[start..start + EntrySize(e)] == EntryBytes(e)
    requires |e.key| <= U16_MAX && |e.value| <= U16_MAX
    ensures ValInRange(b, start) && KeyFrom(b, start) == e.key && ValFrom(b, start) == e.value
  {
    hide Le, FromLe, EntryBytes;
    LeU16(|e.key|);
    LeU16(|e.value|);
    EntryParts(e);
    var k, v := |e.key|, |e.value|;
    SubSlice(b, start, 4 + k + v, 0, 2);
    SubSlice(b, start, 4 + k + v, 2, 2 + k);
    SubSlice(b, start, 4 + k + v, 2 + k, 4 + k);
    SubSlice(b, start, 4 + k + v, 4 + k, 4 + k + v);
  }

  lemma EntryParts(e: Entry)
    ensures var whole, k, v := EntryBytes(e), |e.key|, |e.value|;
            && whole[..2] == Le(k, 2) && whole[2..2 + k] == e.key
            && whole[2 + k..4 + k] == Le(v, 2) && whole[4 + k..4 + k + v] == e.value
  {
    hide Le;
    var k, v := Le(|e.key|, 2), Le(|e.value|, 2);
    Quartered(k, e.key, v, e.value);
  }

  lemma Quartered(a: Bytes, b: Bytes, c: Bytes, d: Bytes)
    requires |a| == |c| == 2
    ensures var whole := a + b + c + d;
            && whole[..2] == a && whole[2..2 + |b|] == b
            && whole[2 + |b|..4 + |b|] == c && whole[4 + |b|..4 + |b| + |d|] == d
  {
  }

  /** The next entry of a sorted list that is short enough can be pushed. */
  lemma NextPush(es: seq<Entry>, k: nat)
    requires k < |es| && EntriesSize(es) <= U16_MAX && SortedEntries(es)
    ensures EntriesSize(es[..k]) + EntrySize(es[k]) <= U16_MAX
    ensures k > 0 ==> Less(es[k - 1].key, es[k].key)
    ensures es[..k + 1] == es[..k] + [es[k]]
  {
    hide EntriesSize, Less;
    EntriesSizeNext(es, k);
    EntriesSizeSplit(es, k + 1);
  }

  lemma PushedEntry(es: seq<Entry>, e: Entry)
    ensures EntriesBytes(es + [e]) == EntriesBytes(es) + EntryBytes(e)
    ensures EntriesSize(es + [e]) == EntriesSize(es) + EntrySize(e)
  {
    assert (es + [e])[..|es|] == es;
  }

  method LeafSearch(node: LeafNode, key: Key) returns (r: SearchResult)
    requires node.Valid() && SortedEntries(node.contents)
    ensures r == Search(node.contents, key)
  {
    hide Less, Rank;
    ghost var es := node.contents;
    var lo, hi: int := 0, node.NKeys() - 1;
    while lo <= hi
      invariant 0 <= lo <= hi + 1 <= |es|
      invariant AllBelow(es, lo, key) && AllAbove(es, hi + 1, key)
    {
      var mid := lo + (hi - lo) / 2;
      var at := node.GetKey(mid);
      if at == key {
        LessIrreflexive(key);
        BelowUpTo(es, mid, key);
        RankIs(es, key, mid);
        return Ok(mid);
      } else if Less(at, key) {
        LessAsymmetric(at, key);
        BelowUpTo(es, mid, key);
        lo := mid + 1;
      } else {
        LessTotal(at, key);
        AboveFrom(es, mid, key);
        hi := mid - 1;
      }
    }
    RankIs(es, key, lo);
    LessIrreflexive(key);
    r := Err(lo);
  }

  method LeafInsert(node: LeafNode, idx: nat, key: Key, val: Value) returns (r: LeafNode)
    requires node.Valid() && idx <= node.NKeys()
    requires EntriesSize(node.contents) + EntrySize(Entry(key, val)) <= U16_MAX
    requires SortedEntries(Inserted(node.contents, idx, Entry(key, val)))
    ensures fresh(r) && r.Valid() && r.contents == Inserted(node.contents, idx, Entry(key, val))
  {
    hide Less, EntriesSize, EntrySize;
    ghost var whole := Inserted(node.contents, idx, Entry(key, val));
    InsertedSize(node.contents, idx, Entry(key, val));
    r := Spliced(node, idx, idx, key, val, whole);
  }

  method LeafUpdate(node: LeafNode, idx: nat, key: Key, val: Value) returns (r: LeafNode)
    requires node.Valid() && idx < node.NKeys()
    requires EntriesSize(node.contents) + EntrySize(Entry(key, val)) <= U16_MAX
    requires SortedEntries(Replaced(node.contents, idx, Entry(key, val)))
    ensures fresh(r) && r.Valid() && r.contents == Replaced(node.contents, idx, Entry(key, val))
  {
    hide Less, EntriesSize, EntrySize;
    ghost var whole := Replaced(node.contents, idx, Entry(key, val));
    ReplacedSize(node.contents, idx, Entry(key, val));
    r := Spliced(node, idx, idx + 1, key, val, whole);
  }

  /** The entries before `to`, the new one, and the entries from `from`. */
  method Spliced(src: LeafNode, to: nat, from: nat, key: Key, val: Value, ghost whole: seq<Entry>) returns (r: LeafNode)
    requires src.Valid() && to <= from <= src.NKeys()
    requires whole == src.contents[..to] + [Entry(key, val)] + src.contents[from..]
    requires EntriesSize(whole) <= U16_MAX && SortedEntries(whole)
    ensures fresh(r) && r.Valid() && r.contents == whole
  {
    hide Less, EntriesSize, EntrySize, LeafNode.Valid, SortedEntries;
    r := new LeafNode.Empty();
    CutPushable(whole, to);
    assert [] + src.contents[0..to] == whole[..to] == src.contents[..to];
    r.PushRange(src, 0, to);
    NextPush(whole, to);
    LaidOut(r);
    r.Push(key, val);
    assert r.contents == whole[..to + 1] == src.contents[..to] + [Entry(key, val)];
    assert src.contents[from..src.NKeys()] == src.contents[from..];
    assert r.contents + src.contents[from..src.NKeys()] == whole;
    r.PushRange(src, from, src.NKeys());
  }

  method LeafSplitBySize(node: LeafNode, pageSize: nat) returns (left: LeafNode, right: LeafNode)
    requires node.Valid() && SortedEntries(node.contents)
    requires Overgrown(node.contents, pageSize) && pageSize <= MAX_PAGE_SIZE
    ensures fresh(left) && fresh(right) && left.Valid() && right.Valid()
    ensures var m := LeafCut(node.contents, pageSize);
            left.contents == node.contents[..m] && right.contents == node.contents[m..]
  {
    hide EntriesSize, Less, Overgrown, LeafNode.Valid, SortedEntries, LeafLeft, LeafRight, AsU16;
    ghost var es := node.contents;
    LeafSplitSucceeds(es, pageSize);
    var m: nat := node.NKeys() / 2;
    LeafSumsFit(es, m, pageSize);
    while m >= 1 && node.LeftBytes(m) > pageSize
      invariant m <= |es| / 2 && LeafLeft(es, m) <= U16_MAX
      invariant LeafDown(es, |es| / 2, pageSize) == LeafDown(es, m, pageSize)
      decreases m
    {
      m := m - 1;
      LeafSumsFit(es, m, pageSize);
    }
    LeafSumsFit(es, m, pageSize);
    while m < node.NKeys() - 1 && node.RightBytes(m) > pageSize
      invariant LeafDown(es, |es| / 2, pageSize) <= m < |es| && LeafRight(es, m) <= U16_MAX
      invariant LeafCut(es, pageSize) == LeafUp(es, m, pageSize)
      decreases |es| - m
    {
      m := m + 1;
      LeafSumsFit(es, m, pageSize);
    }
    CutPushable(es, m);
    left := new LeafNode.Empty();
    left.PushRange(node, 0, m);
    right := new LeafNode.Empty();
    right.PushRange(node, m, node.NKeys());
  }

  /** Both sides of a cut of a sorted list can be pushed onto empty leaves. */
  lemma CutPushable(es: seq<Entry>, m: nat)
    requires EntriesSize(es) <= U16_MAX && SortedEntries(es) && m <= |es|
    ensures [] + es[0..m] == es[..m] && [] + es[m..|es|] == es[m..]
    ensures EntriesSize(es[..m]) <= U16_MAX && SortedEntries(es[..m])
    ensures EntriesSize(es[m..]) <= U16_MAX && SortedEntries(es[m..])
  {
    hide EntriesSize, Less;
    EntriesSizeSplit(es, m);
  }
}
