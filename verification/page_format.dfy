/** The byte layout of tree pages: what a page's bytes are for given contents, and what contents given bytes hold. */
module PageFormat {
  import opened Wrappers
  import opened ByteStrings

  type PageId = nat
  type Key = Bytes
  type Value = Bytes

  datatype Entry = Entry(key: Key, value: Value)

  const PAGE_TYPE_LEAF: Byte := 0x01
  const PAGE_TYPE_INTERNAL: Byte := 0x02
  const PAGE_TYPE_FREE_LIST: Byte := 0x03
  const PAGE_TYPE_HEADER: Byte := 0x2A

  /** Type tag, page id and key count. */
  const NODE_HEADER: nat := 11

  /** What a tree page holds. */
  datatype Content =
    | LeafContent(entries: seq<Entry>)
    | InnerContent(keys: seq<Key>, children: seq<PageId>)

  /* ---- Sizes ---- */

  function EntrySize(e: Entry): nat {
    4 + |e.key| + |e.value|
  }

  function EntriesSize(es: seq<Entry>): nat {
    if es == [] then 0 else EntriesSize(es[..|es| - 1]) + EntrySize(es[|es| - 1])
  }

  function KeysSize(keys: seq<Key>): nat {
    if keys == [] then 0 else KeysSize(keys[..|keys| - 1]) + 2 + |keys[|keys| - 1]|
  }

  function ContentSize(c: Content): nat {
    match c
    case LeafContent(es) => NODE_HEADER + EntriesSize(es)
    case InnerContent(keys, children) => NODE_HEADER + KeysSize(keys) + 8 * |children|
  }

  lemma {:induction false} EntriesSizeConcat(a: seq<Entry>, b: seq<Entry>)
    ensures EntriesSize(a + b) == EntriesSize(a) + EntriesSize(b)
    decreases |b|
  {
    if b == [] {
      assert a + b == a;
    } else {
      EntriesSizeConcat(a, b[..|b| - 1]);
      assert (a + b)[..|a + b| - 1] == a + b[..|b| - 1];
    }
  }

  lemma {:induction false} KeysSizeConcat(a: seq<Key>, b: seq<Key>)
    ensures KeysSize(a + b) == KeysSize(a) + KeysSize(b)
    decreases |b|
  {
    if b == [] {
      assert a + b == a;
    } else {
      KeysSizeConcat(a, b[..|b| - 1]);
      assert (a + b)[..|a + b| - 1] == a + b[..|b| - 1];
    }
  }

  /** The offset after one more entry. */
  lemma EntriesSizeNext(es: seq<Entry>, i: nat)
    requires i < |es|
    ensures EntriesSize(es[..i + 1]) == EntriesSize(es[..i]) + EntrySize(es[i])
  {
    assert es[..i + 1][..i] == es[..i];
  }

  lemma KeysSizeNext(keys: seq<Key>, i: nat)
    requires i < |keys|
    ensures KeysSize(keys[..i + 1]) == KeysSize(keys[..i]) + 2 + |keys[i]|
  {
    assert keys[..i + 1][..i] == keys[..i];
  }

  lemma EntriesSizeSplit(es: seq<Entry>, i: nat)
    requires i <= |es|
    ensures EntriesSize(es) == EntriesSize(es[..i]) + EntriesSize(es[i..])
  {
    hide EntriesSize;
    EntriesSizeConcat(es[..i], es[i..]);
    assert es == es[..i] + es[i..];
  }

  lemma KeysSizeSplit(keys: seq<Key>, i: nat)
    requires i <= |keys|
    ensures KeysSize(keys) == KeysSize(keys[..i]) + KeysSize(keys[i..])
  {
    hide KeysSize;
    KeysSizeConcat(keys[..i], keys[i..]);
    assert keys == keys[..i] + keys[i..];
  }

  lemma {:induction false} EntriesAtLeastFour(es: seq<Entry>)
    ensures EntriesSize(es) >= 4 * |es|
    decreases |es|
  {
    if es != [] {
      EntriesAtLeastFour(es[..|es| - 1]);
    }
  }

  lemma {:induction false} KeysAtLeastTwo(keys: seq<Key>)
    ensures KeysSize(keys) >= 2 * |keys|
    decreases |keys|
  {
    if keys != [] {
      KeysAtLeastTwo(keys[..|keys| - 1]);
    }
  }

  /* ---- Encoding ---- */

  function EntryBytes(e: Entry): (r: Bytes)
    ensures |r| == EntrySize(e)
  {
    Le(|e.key|, 2) + e.key + Le(|e.value|, 2) + e.value
  }

  function EntriesBytes(es: seq<Entry>): (r: Bytes)
    ensures |r| == EntriesSize(es)
  {
    if es == [] then [] else EntriesBytes(es[..|es| - 1]) + EntryBytes(es[|es| - 1])
  }

  function KeyBytes(k: Key): (r: Bytes)
    ensures |r| == |k| + 2
  {
    Le(|k|, 2) + k
  }

  function KeysBytes(keys: seq<Key>): (r: Bytes)
    ensures |r| == KeysSize(keys)
  {
    if keys == [] then [] else KeysBytes(keys[..|keys| - 1]) + KeyBytes(keys[|keys| - 1])
  }

  function IdsBytes(ids: seq<PageId>): (r: Bytes)
    ensures |r| == 8 * |ids|
  {
    if ids == [] then [] else IdsBytes(ids[..|ids| - 1]) + Le(ids[|ids| - 1], 8)
  }

  function Tag(c: Content): Byte {
    if c.LeafContent? then PAGE_TYPE_LEAF else PAGE_TYPE_INTERNAL
  }

  function KeyCount(c: Content): nat {
    if c.LeafContent? then |c.entries| else |c.keys|
  }

  function Body(c: Content): (r: Bytes)
    ensures |r| == ContentSize(c) - NODE_HEADER
  {
    match c
    case LeafContent(es) => EntriesBytes(es)
    case InnerContent(keys, children) => KeysBytes(keys) + IdsBytes(children)
  }

  function NodeHeader(c: Content, id: PageId): (r: Bytes)
    ensures |r| == NODE_HEADER
  {
    [Tag(c)] + Le(id, 8) + Le(KeyCount(c), 2)
  }

  /** The bytes of a page up to its padding. */
  function Unpadded(c: Content, id: PageId): (r: Bytes)
    ensures |r| == ContentSize(c)
  {
    NodeHeader(c, id) + Body(c)
  }

  function PageBytes(c: Content, id: PageId, pageSize: nat): (r: Bytes)
    requires ContentSize(c) <= pageSize
    ensures |r| == pageSize && Unpadded(c, id) <= r
  {
    Unpadded(c, id) + Zeros(pageSize - ContentSize(c))
  }

  lemma {:induction false} EntriesBytesConcat(a: seq<Entry>, b: seq<Entry>)
    ensures EntriesBytes(a + b) == EntriesBytes(a) + EntriesBytes(b)
    decreases |b|
  {
    hide EntrySize, EntryBytes, EntriesSize;
    if b == [] {
      assert a + b == a;
    } else {
      EntriesBytesConcat(a, b[..|b| - 1]);
      assert (a + b)[..|a + b| - 1] == a + b[..|b| - 1];
    }
  }

  lemma {:induction false} KeysBytesConcat(a: seq<Key>, b: seq<Key>)
    ensures KeysBytes(a + b) == KeysBytes(a) + KeysBytes(b)
    decreases |b|
  {
    hide KeyBytes, KeysSize;
    if b == [] {
      assert a + b == a;
    } else {
      KeysBytesConcat(a, b[..|b| - 1]);
      assert (a + b)[..|a + b| - 1] == a + b[..|b| - 1];
    }
  }

  lemma {:induction false} IdsBytesConcat(a: seq<PageId>, b: seq<PageId>)
    ensures IdsBytes(a + b) == IdsBytes(a) + IdsBytes(b)
    decreases |b|
  {
    hide Le;
    if b == [] {
      assert a + b == a;
    } else {
      IdsBytesConcat(a, b[..|b| - 1]);
      assert (a + b)[..|a + b| - 1] == a + b[..|b| - 1];
    }
  }

  lemma SubSlice(b: Bytes, start: nat, len: nat, i: nat, j: nat)
    requires i <= j <= len && start + len <= |b|
    ensures b[start..start + len][i..j] == b[start + i..start + j]
  {
    var whole := b[start..start + len];
    assert forall k :: i <= k < j ==> whole[k] == b[start + k];
    assert whole[i..j] == b[start + i..start + j];
  }

  lemma Middle(a: Bytes, b: Bytes, c: Bytes)
    ensures (a + b + c)[|a|..|a| + |b|] == b
  {
  }

  /** An entry's bytes sit between its offset and the next. */
  lemma EntryAt(es: seq<Entry>, i: nat)
    requires i < |es|
    ensures EntriesSize(es[..i]) + EntrySize(es[i]) == EntriesSize(es[..i + 1]) <= EntriesSize(es)
    ensures EntriesBytes(es)[EntriesSize(es[..i])..EntriesSize(es[..i + 1])] == EntryBytes(es[i])
  {
    hide EntriesSize, EntryBytes, EntrySize;
    var before, through := es[..i], es[..i + 1];
    EntriesSizeNext(es, i);
    EntriesSizeSplit(es, i + 1);
    assert through[..i] == before && through[i] == es[i];
    assert EntriesBytes(through) == EntriesBytes(before) + EntryBytes(es[i]);
    assert es == through + es[i + 1..];
    EntriesBytesConcat(through, es[i + 1..]);
    hide EntriesBytes;
    Middle(EntriesBytes(before), EntryBytes(es[i]), EntriesBytes(es[i + 1..]));
  }

  lemma KeyAt(keys: seq<Key>, i: nat)
    requires i < |keys|
    ensures KeysSize(keys[..i]) + 2 + |keys[i]| == KeysSize(keys[..i + 1]) <= KeysSize(keys)
    ensures KeysBytes(keys)[KeysSize(keys[..i])..KeysSize(keys[..i + 1])] == KeyBytes(keys[i])
  {
    hide KeysSize, KeyBytes;
    var before, through := keys[..i], keys[..i + 1];
    KeysSizeNext(keys, i);
    KeysSizeSplit(keys, i + 1);
    assert through[..i] == before && through[i] == keys[i];
    assert KeysBytes(through) == KeysBytes(before) + KeyBytes(keys[i]);
    assert keys == through + keys[i + 1..];
    KeysBytesConcat(through, keys[i + 1..]);
    hide KeysBytes;
    Middle(KeysBytes(before), KeyBytes(keys[i]), KeysBytes(keys[i + 1..]));
  }

  /* ---- Decoding ---- */

  lemma {:induction false} EntryInSize(es: seq<Entry>, e: Entry)
    requires e in es
    ensures EntrySize(e) <= EntriesSize(es)
    decreases |es|
  {
    if e != es[|es| - 1] {
      EntryInSize(es[..|es| - 1], e);
    }
  }

  lemma {:induction false} KeyInSize(keys: seq<Key>, k: Key)
    requires k in keys
    ensures |k| + 2 <= KeysSize(keys)
    decreases |keys|
  {
    if k != keys[|keys| - 1] {
      KeyInSize(keys[..|keys| - 1], k);
    }
  }

  /** Contents that fit a page of at most 65535 bytes, with 64-bit child ids, can be encoded. */
  lemma FittingIsEncodable(c: Content)
    requires ContentSize(c) <= U16_MAX
    requires c.InnerContent? ==> |c.children| == |c.keys| + 1 && forall id :: id in c.children ==> id < U64_RANGE
    ensures Encodable(c)
  {
    hide EntriesSize, KeysSize;
    match c {
      case LeafContent(es) =>
        EntriesAtLeastFour(es);
        forall e | e in es
          ensures |e.key| <= U16_MAX && |e.value| <= U16_MAX
        {
          EntryInSize(es, e);
        }
      case InnerContent(keys, _) =>
        KeysAtLeastTwo(keys);
        forall k | k in keys
          ensures |k| <= U16_MAX
        {
          KeyInSize(keys, k);
        }
    }
  }

  /** Contents every field of which fits its place in the page. */
  ghost predicate Encodable(c: Content) {
    && KeyCount(c) <= U16_MAX
    && match c
       case LeafContent(es) => forall e :: e in es ==> |e.key| <= U16_MAX && |e.value| <= U16_MAX
       case InnerContent(keys, children) =>
         && |children| == |keys| + 1
         && (forall k :: k in keys ==> |k| <= U16_MAX)
         && (forall id :: id in children ==> id < U64_RANGE)
  }

  /** The first entry of a byte string and its length; `None` where slicing would panic. */
  function FirstEntry(b: Bytes): (r: Option<Entry>)
    ensures r.Some? ==> EntrySize(r.value) <= |b|
  {
    if |b| < 2 then None
    else
      var klen := FromLe(b[..2]);
      if |b| < klen + 4 then None
      else
        var vlen := FromLe(b[klen + 2..klen + 4]);
        if |b| < klen + vlen + 4 then None
        else Some(Entry(b[2..klen + 2], b[klen + 4..klen + vlen + 4]))
  }

  function ParseEntries(b: Bytes, n: nat): Option<seq<Entry>>
    decreases n
  {
    if n == 0 then Some([])
    else
      match FirstEntry(b)
      case None => None
      case Some(e) =>
        match ParseEntries(b[EntrySize(e)..], n - 1)
        case None => None
        case Some(es) => Some([e] + es)
  }

  function FirstKey(b: Bytes): (r: Option<Key>)
    ensures r.Some? ==> |r.value| + 2 <= |b|
  {
    if |b| < 2 then None
    else
      var klen := FromLe(b[..2]);
      if |b| < klen + 2 then None else Some(b[2..klen + 2])
  }

  function ParseKeys(b: Bytes, n: nat): Option<(seq<Key>, Bytes)>
    decreases n
  {
    if n == 0 then Some(([], b))
    else
      match FirstKey(b)
      case None => None
      case Some(k) =>
        match ParseKeys(b[|k| + 2..], n - 1)
        case None => None
        case Some((keys, rest)) => Some(([k] + keys, rest))
  }

  function ParseIds(b: Bytes, n: nat): Option<seq<PageId>>
    decreases n
  {
    if n == 0 then Some([])
    else if |b| < 8 then None
    else
      match ParseIds(b[8..], n - 1)
      case None => None
      case Some(ids) => Some([FromLe(b[..8])] + ids)
  }

  function ParseInner(b: Bytes, n: nat): Option<Content> {
    match ParseKeys(b, n)
    case None => None
    case Some((keys, rest)) =>
      match ParseIds(rest, n + 1)
      case None => None
      case Some(ids) => Some(InnerContent(keys, ids))
  }

  function ParseLeaf(b: Bytes, n: nat): Option<Content> {
    match ParseEntries(b, n)
    case None => None
    case Some(es) => Some(LeafContent(es))
  }

  /** What a page's bytes hold; `None` where the source's decoder would panic. */
  function Parse(id: PageId, b: Bytes): Option<Content> {
    if |b| < NODE_HEADER || FromLe(b[1..9]) != id then None
    else if b[0] == PAGE_TYPE_LEAF then ParseLeaf(b[NODE_HEADER..], FromLe(b[9..11]))
    else if b[0] == PAGE_TYPE_INTERNAL then ParseInner(b[NODE_HEADER..], FromLe(b[9..11]))
    else None
  }

  /* ---- Round trips ---- */

  lemma FirstEntryRoundTrip(e: Entry, rest: Bytes)
    requires |e.key| <= U16_MAX && |e.value| <= U16_MAX
    ensures FirstEntry(EntryBytes(e) + rest) == Some(e)
  {
    var b := EntryBytes(e) + rest;
    LeU16(|e.key|);
    LeU16(|e.value|);
    assert b[..2] == Le(|e.key|, 2);
    var klen := |e.key|;
    assert b[klen + 2..klen + 4] == Le(|e.value|, 2);
    assert b[2..klen + 2] == e.key;
    assert b[klen + 4..klen + |e.value| + 4] == e.value;
  }

  lemma {:induction false} EntriesRoundTrip(es: seq<Entry>, rest: Bytes)
    requires forall e :: e in es ==> |e.key| <= U16_MAX && |e.value| <= U16_MAX
    ensures ParseEntries(EntriesBytes(es) + rest, |es|) == Some(es)
    decreases |es|
  {
    hide FirstEntry, EntryBytes, EntriesSize;
    if es != [] {
      var tail := EntriesBytes(es[1..]) + rest;
      EntriesBytesConcat([es[0]], es[1..]);
      assert es == [es[0]] + es[1..];
      assert EntriesBytes([es[0]]) == EntryBytes(es[0]);
      assert EntriesBytes(es) + rest == EntryBytes(es[0]) + tail;
      FirstEntryRoundTrip(es[0], tail);
      EntriesRoundTrip(es[1..], rest);
    }
  }

  lemma FirstKeyRoundTrip(k: Key, rest: Bytes)
    requires |k| <= U16_MAX
    ensures FirstKey(KeyBytes(k) + rest) == Some(k)
  {
    var b := KeyBytes(k) + rest;
    LeU16(|k|);
    assert b[..2] == Le(|k|, 2);
    assert b[2..|k| + 2] == k;
  }

  lemma {:induction false} KeysRoundTrip(keys: seq<Key>, rest: Bytes)
    requires forall k :: k in keys ==> |k| <= U16_MAX
    ensures ParseKeys(KeysBytes(keys) + rest, |keys|) == Some((keys, rest))
    decreases |keys|
  {
    hide FirstKey, KeyBytes, KeysSize;
    if keys == [] {
      assert KeysBytes(keys) + rest == rest;
    } else {
      var tail := KeysBytes(keys[1..]) + rest;
      KeysBytesConcat([keys[0]], keys[1..]);
      assert keys == [keys[0]] + keys[1..];
      assert KeysBytes([keys[0]]) == KeyBytes(keys[0]);
      assert KeysBytes(keys) + rest == KeyBytes(keys[0]) + tail;
      FirstKeyRoundTrip(keys[0], tail);
      assert (KeyBytes(keys[0]) + tail)[|keys[0]| + 2..] == tail;
      KeysRoundTrip(keys[1..], rest);
      hide KeysBytes;
    }
  }

  lemma {:induction false} IdsRoundTrip(ids: seq<PageId>, rest: Bytes)
    requires forall id :: id in ids ==> id < U64_RANGE
    ensures ParseIds(IdsBytes(ids) + rest, |ids|) == Some(ids)
    decreases |ids|
  {
    if ids != [] {
      var tail := IdsBytes(ids[1..]) + rest;
      IdsBytesConcat([ids[0]], ids[1..]);
      assert ids == [ids[0]] + ids[1..];
      assert IdsBytes([ids[0]]) == Le(ids[0], 8);
      var b := IdsBytes(ids) + rest;
      assert b == Le(ids[0], 8) + tail;
      assert ids[0] in ids && forall id :: id in ids[1..] ==> id in ids;
      LeU64(ids[0]);
      assert b[..8] == Le(ids[0], 8) && b[8..] == tail;
      IdsRoundTrip(ids[1..], rest);
    }
  }

  /** Any bytes that begin with a page's encoding decode to its contents, whatever follows. */
  lemma PageRoundTrip(c: Content, id: PageId, b: Bytes)
    requires Encodable(c) && id < U64_RANGE && Unpadded(c, id) <= b
    ensures Parse(id, b) == Some(c)
  {
    hide Le, FromLe, EntriesBytes, KeysBytes, IdsBytes, ParseEntries, ParseKeys, ParseIds, EntriesSize, KeysSize;
    var rest := b[ContentSize(c)..];
    NodeHeaderRoundTrip(c, id, b);
    assert b[NODE_HEADER..] == Body(c) + rest;
    match c {
      case LeafContent(es) => EntriesRoundTrip(es, rest);
      case InnerContent(keys, children) =>
        assert Body(c) + rest == KeysBytes(keys) + (IdsBytes(children) + rest);
        KeysRoundTrip(keys, IdsBytes(children) + rest);
        IdsRoundTrip(children, rest);
    }
  }

  lemma NodeHeaderRoundTrip(c: Content, id: PageId, b: Bytes)
    requires KeyCount(c) <= U16_MAX && id < U64_RANGE && Unpadded(c, id) <= b
    ensures b[0] == Tag(c) && FromLe(b[1..9]) == id && FromLe(b[9..11]) == KeyCount(c)
  {
    hide Le, FromLe, Body;
    var h := NodeHeader(c, id);
    assert h <= b;
    assert b[1..9] == h[1..9] == Le(id, 8);
    assert b[9..11] == h[9..11] == Le(KeyCount(c), 2);
    LeU64(id);
    LeU16(KeyCount(c));
  }

  /** No two contents, and no two ids, have the same page bytes. */
  lemma PageBytesInjective(c: Content, id: PageId, c': Content, id': PageId, pageSize: nat)
    requires Encodable(c) && Encodable(c') && id < U64_RANGE && id' < U64_RANGE
    requires ContentSize(c) <= pageSize && ContentSize(c') <= pageSize
    requires PageBytes(c, id, pageSize) == PageBytes(c', id', pageSize)
    ensures c == c' && id == id'
  {
    hide Unpadded, Parse;
    var b := PageBytes(c, id, pageSize);
    PageRoundTrip(c, id, b);
    PageRoundTrip(c', id', b);
    NodeHeaderRoundTrip(c, id, b);
    NodeHeaderRoundTrip(c', id', b);
  }

  /** A decoded entry's encoding is what was read. */
  lemma FirstEntryBytes(b: Bytes)
    requires FirstEntry(b).Some?
    ensures EntryBytes(FirstEntry(b).value) == b[..EntrySize(FirstEntry(b).value)]
  {
    hide Le, FromLe;
    U16RoundTrip(b[..2]);
    var klen := FromLe(b[..2]);
    U16RoundTrip(b[klen + 2..klen + 4]);
  }

  lemma FirstKeyBytes(b: Bytes)
    requires FirstKey(b).Some?
    ensures KeyBytes(FirstKey(b).value) == b[..|FirstKey(b).value| + 2]
  {
    hide Le, FromLe;
    U16RoundTrip(b[..2]);
  }

  /** The header fields both node kinds write into a zeroed buffer. */
  method StampHeader(buf: array<Byte>, tag: Byte, pageId: PageId, nkeys: nat)
    requires NODE_HEADER <= buf.Length && buf[..] == Zeros(buf.Length)
    modifies buf
    ensures buf[..] == [tag] + Le(pageId, 8) + Le(AsU16(nkeys), 2) + Zeros(buf.Length - NODE_HEADER)
  {
    hide Le, AsU16;
    buf[0] := tag;
    assert buf[..] == [tag] + Zeros(buf.Length - 1);
    CopyNext(buf, 1, Le(pageId, 8), [tag]);
    CopyNext(buf, 9, Le(AsU16(nkeys), 2), [tag] + Le(pageId, 8));
  }

  /** Writes page ids one after the other from `pos`. */
  method WriteIds(buf: array<Byte>, start: nat, ids: seq<PageId>, ghost front: Bytes)
    requires start + 8 * |ids| <= buf.Length && |front| == start
    requires buf[..] == front + Zeros(buf.Length - start)
    modifies buf
    ensures buf[..] == front + IdsBytes(ids) + Zeros(buf.Length - start - 8 * |ids|)
  {
    hide Le;
    var pos := start;
    for i := 0 to |ids|
      invariant pos == start + 8 * i
      invariant buf[..] == front + IdsBytes(ids[..i]) + Zeros(buf.Length - pos)
    {
      IdsBytesNext(ids, i);
      hide IdsBytes;
      ghost var head := front + IdsBytes(ids[..i]);
      CopyNext(buf, pos, Le(ids[i], 8), head);
      assert head + Le(ids[i], 8) == front + (IdsBytes(ids[..i]) + Le(ids[i], 8));
      pos := pos + 8;
    }
    assert ids[..|ids|] == ids;
  }

  /** The id-reading loops have read `done`, and the rest still parses. */
  ghost predicate ParsingIds(b: Bytes, n: nat, i: nat, done: seq<PageId>) {
    && i <= n && |done| == i && 8 * i <= |b|
    && ParseIds(b[8 * i..], n - i).Some?
    && ParseIds(b, n) == Some(done + ParseIds(b[8 * i..], n - i).value)
  }

  lemma ParsingIdsStarts(b: Bytes, n: nat)
    requires ParseIds(b, n).Some?
    ensures ParsingIds(b, n, 0, [])
  {
    assert b[0..] == b;
    var ids := ParseIds(b, n).value;
    assert [] + ids == ids;
  }

  lemma ParsingIdsGoesOn(b: Bytes, n: nat, i: nat, done: seq<PageId>)
    requires ParsingIds(b, n, i, done) && i < n
    ensures 8 * i + 8 <= |b|
    ensures ParsingIds(b, n, i + 1, done + [FromLe(b[8 * i..8 * i + 8])])
  {
    hide FromLe;
    var rest := b[8 * i..];
    assert rest[..8] == b[8 * i..8 * i + 8] && rest[8..] == b[8 * (i + 1)..];
    var id := FromLe(b[8 * i..8 * i + 8]);
    var tail := ParseIds(rest[8..], n - i - 1).value;
    assert done + ([id] + tail) == done + [id] + tail;
  }

  lemma ParsingIdsEnds(b: Bytes, n: nat, done: seq<PageId>)
    requires ParsingIds(b, n, n, done)
    ensures ParseIds(b, n) == Some(done) && |done| == n
  {
    assert done + [] == done;
  }

  lemma IdsBytesNext(ids: seq<PageId>, i: nat)
    requires i < |ids|
    ensures IdsBytes(ids[..i + 1]) == IdsBytes(ids[..i]) + Le(ids[i], 8)
  {
    assert ids[..i + 1][..i] == ids[..i];
  }
}
