/** Internal pages: separator keys in a byte buffer with an in-memory index, and child page ids. */
module InternalNodes {
  import opened Wrappers
  import opened ByteStrings
  import opened PageFormat
  import opened SplitPoints
  import opened KeySearch

  class InternalNode {
    var id: PageId
    var keys: Bytes
    var keyStart: seq<nat>
    var children: seq<PageId>
    ghost var contents: seq<Key>

    ghost predicate Valid()
      reads this
    {
      keys == KeysBytes(contents) && KeysSize(contents) <= U16_MAX && KeyIndexOf(keyStart, contents)
    }

    /** One more child than separators, as every finished node has. */
    ghost predicate Complete()
      reads this
    {
      Valid() && |children| == |contents| + 1
    }

    ghost function Content(): Content
      reads this
    {
      InnerContent(contents, children)
    }

    /** What pushing keeps whatever the sizes: each start is recorded as a `u16`, wrapped past 65535 bytes. */
    ghost predicate Laid()
      reads this
    {
      keys == KeysBytes(contents) && WrappedKeyIndexOf(keyStart, contents)
    }

    constructor Empty()
      ensures Valid() && contents == [] && children == [] && id == 0
    {
      id, keys, keyStart, children, contents := 0, [], [0], [], [];
    }

    /** `InternalNode::decode`; the type and id checks are the source's debug assertions. */
    constructor Decode(expectedId: PageId, bytes: Bytes)
      requires Parse(expectedId, bytes).Some? && bytes[0] == PAGE_TYPE_INTERNAL && |bytes| <= U16_MAX
      ensures Complete() && id == expectedId
      ensures Parse(expectedId, bytes) == Some(InnerContent(contents, children))
    {
      hide Le, FromLe, ParseKeys, ParseIds, KeysBytes, KeysSize, ParsingKeys, ParsingIds;
      var nkeys := FromLe(bytes[9..11]);
      ghost var all := bytes[NODE_HEADER..];
      var starts: seq<nat> := [0];
      var pos: nat := NODE_HEADER;
      ghost var done := [];
      ParsingKeysStarts(all, nkeys);
      for i := 0 to nkeys
        invariant NODE_HEADER <= pos <= |bytes| && |done| == i
        invariant ParsingKeys(all, nkeys, i, pos - NODE_HEADER, done)
        invariant KeyIndexOf(starts, done)
      {
        ghost var k := ParsingKeysGoesOn(all, nkeys, i, pos - NODE_HEADER, done);
        assert bytes[pos..pos + 2] == all[pos - NODE_HEADER..pos - NODE_HEADER + 2];
        var klen := FromLe(bytes[pos..pos + 2]);
        pos := pos + 2 + klen;
        KeyIndexGrows(starts, done, k, pos - NODE_HEADER);
        starts := starts + [AsU16(pos - NODE_HEADER)];
        done := done + [k];
      }
      ParsingKeysEnds(all, nkeys, pos - NODE_HEADER, done);
      var keysEnd := pos;
      ghost var rest := all[keysEnd - NODE_HEADER..];
      var ids: seq<PageId> := [];
      var cpos: nat := keysEnd;
      ParsingIdsStarts(rest, nkeys + 1);
      for i := 0 to nkeys + 1
        invariant ParsingIds(rest, nkeys + 1, i, ids) && cpos == keysEnd + 8 * i
      {
        ParsingIdsGoesOn(rest, nkeys + 1, i, ids);
        assert bytes[cpos..cpos + 8] == rest[8 * i..8 * i + 8];
        ids := ids + [FromLe(bytes[cpos..cpos + 8])];
        cpos := cpos + 8;
      }
      ParsingIdsEnds(rest, nkeys + 1, ids);
      assert bytes[NODE_HEADER..keysEnd] == all[..keysEnd - NODE_HEADER];
      id, keys, keyStart := FromLe(bytes[1..9]), bytes[NODE_HEADER..keysEnd], starts;
      children, contents := ids, done;
    }

    function NKeys(): (r: nat)
      reads this
      requires Valid()
      ensures r == |contents|
    {
      |keyStart| - 1
    }

    function NChildren(): (r: nat)
      reads this
      requires Valid()
      ensures r == |contents| + 1
    {
      NKeys() + 1
    }

    function GetKey(idx: nat): (r: Key)
      reads this
      requires Valid() && idx < NKeys()
      ensures r == contents[idx]
    {
      KeyFieldAt(contents, idx);
      keys[keyStart[idx] + 2..keyStart[idx + 1]]
    }

    function NBytes(): (r: nat)
      reads this
      requires Valid()
      ensures r == ContentSize(Content())
    {
      NODE_HEADER + |keys| + 8 * |children|
    }

    /** The size of a left half of m keys, in the source's 16-bit arithmetic. */
    function LeftBytes(m: nat): (r: nat)
      reads this
      requires Valid() && m <= NKeys()
      ensures r == AsU16(InnerLeft(contents, m))
    {
      AsU16(NODE_HEADER + keyStart[m] + 8 * (m + 1))
    }

    /** The size of the right half after promoting key m, in the source's 16-bit arithmetic. */
    function RightBytes(m: nat): (r: nat)
      reads this
      requires Valid() && m < NKeys()
      ensures r == AsU16(InnerRight(contents, m))
    {
      KeysSizeSplit(contents, m + 1);
      AsU16(NODE_HEADER + (AsU16(|keys|) - keyStart[m + 1]) + 8 * (NKeys() - m))
    }

    method PushKey(key: Key)
      requires Laid() && (contents == [] || Less(contents[|contents| - 1], key))
      modifies this
      ensures Laid() && contents == old(contents) + [key] && id == old(id) && children == old(children)
      ensures KeysSize(contents) <= U16_MAX ==> Valid()
    {
      hide Less, Le, KeysSize, KeysBytes;
      ghost var before := contents;
      LeTruncates(|key|);
      PushedKey(contents, key);
      keys := keys + Le(AsU16(|key|), 2);
      keys := keys + key;
      assert keys == KeysBytes(before) + KeyBytes(key);
      keyStart := keyStart + [AsU16(|keys|)];
      contents := contents + [key];
      WrappedKeyIndexGrows(old(keyStart), before, key, AsU16(|keys|));
      if KeysSize(contents) <= U16_MAX {
        NoKeyWraps(keyStart, contents);
      }
    }

    method PushChild(child: PageId)
      modifies this`children
      ensures children == old(children) + [child] && (old(Valid()) ==> Valid())
    {
      children := children + [child];
    }

    method PushKeys(src: InternalNode, from: nat, to: nat)
      requires src != this && src.Valid() && from <= to <= src.NKeys()
      requires Valid() && KeysSize(contents + src.contents[from..to]) <= U16_MAX
      requires Sorted(contents + src.contents[from..to])
      modifies this
      ensures Valid() && contents == old(contents) + src.contents[from..to]
      ensures id == old(id) && children == old(children)
    {
      hide KeysSize, Less, Sorted, KeyIndexOf, InternalNode.Valid;
      ghost var whole := contents + src.contents[from..to];
      ghost var n := |contents|;
      for i := from to to
        invariant Valid() && contents == whole[..n + i - from] && id == old(id) && children == old(children)
      {
        NextKeyPush(whole, n + i - from);
        KeysLaidOut(this);
        assert whole[n + i - from] == src.contents[i];
        PushKey(src.GetKey(i));
      }
      assert whole[..n + to - from] == whole;
    }

    method PushChildren(src: InternalNode, from: nat, to: nat)
      requires src != this && from <= to <= |src.children|
      modifies this`children
      ensures children == old(children) + src.children[from..to] && (old(Valid()) ==> Valid())
    {
      hide InternalNode.Valid;
      for i := from to to
        invariant children == old(children) + src.children[from..i] && (old(Valid()) ==> Valid())
      {
        PushChild(src.children[i]);
      }
    }

    /** The page's bytes: header, keys, children, and zeros to the end. */
    method ToBytes(pageId: PageId, pageSize: nat) returns (r: Bytes)
      requires Complete() && NBytes() <= pageSize
      ensures r == PageBytes(Content(), pageId, pageSize)
    {
      hide KeysBytes, KeysSize, Le, IdsBytes, KeyIndexOf;
      var buf := new Byte[pageSize](_ => 0);
      assert buf[..] == Zeros(pageSize);
      KeysAtLeastTwo(contents);
      StampHeader(buf, PAGE_TYPE_INTERNAL, pageId, NKeys());
      ghost var header := NodeHeader(Content(), pageId);
      assert buf[..] == header + Zeros(pageSize - NODE_HEADER);
      hide InternalNode.Valid, NodeHeader, Body;
      var keysEnd := NODE_HEADER + |keys|;
      CopyNext(buf, NODE_HEADER, keys, header);
      ghost var front := header + keys;
      assert buf[..] == front + Zeros(pageSize - keysEnd);
      WriteIds(buf, keysEnd, children, front);
      assert front + IdsBytes(children) == header + (keys + IdsBytes(children));
      r := buf[..];
    }
  }

  /* ---- The in-memory index ---- */

  ghost predicate KeyIndexOf(starts: seq<nat>, keys: seq<Key>) {
    |starts| == |keys| + 1 && forall i :: 0 <= i <= |keys| ==> starts[i] == KeysSize(keys[..i])
  }

  lemma PushedKey(keys: seq<Key>, k: Key)
    ensures KeysBytes(keys + [k]) == KeysBytes(keys) + KeyBytes(k)
    ensures KeysSize(keys + [k]) == KeysSize(keys) + 2 + |k|
  {
    assert (keys + [k])[..|keys|] == keys;
  }

  ghost predicate WrappedKeyIndexOf(starts: seq<nat>, keys: seq<Key>) {
    |starts| == |keys| + 1 && forall i :: 0 <= i <= |keys| ==> starts[i] == AsU16(KeysSize(keys[..i]))
  }

  lemma WrappedKeyIndexGrows(starts: seq<nat>, keys: seq<Key>, k: Key, pos: nat)
    requires WrappedKeyIndexOf(starts, keys) && pos == AsU16(KeysSize(keys) + 2 + |k|)
    ensures WrappedKeyIndexOf(starts + [pos], keys + [k])
  {
    hide KeysSize, KeysBytes, KeyBytes, AsU16;
    PushedKey(keys, k);
    var all := keys + [k];
    forall i | 0 <= i <= |all|
      ensures (starts + [pos])[i] == AsU16(KeysSize(all[..i]))
    {
      if i <= |keys| {
        assert (starts + [pos])[i] == starts[i] && all[..i] == keys[..i];
      } else {
        assert (starts + [pos])[i] == pos && all[..i] == all;
      }
    }
  }

  /** Up to 65535 bytes no start wraps. */
  lemma NoKeyWraps(starts: seq<nat>, keys: seq<Key>)
    requires KeysSize(keys) <= U16_MAX
    ensures WrappedKeyIndexOf(starts, keys) <==> KeyIndexOf(starts, keys)
  {
    hide KeysSize;
    forall i | 0 <= i <= |keys|
      ensures AsU16(KeysSize(keys[..i])) == KeysSize(keys[..i])
    {
      KeysSizeSplit(keys, i);
    }
  }

  lemma KeysLaidOut(node: InternalNode)
    requires node.Valid()
    ensures node.Laid()
  {
    NoKeyWraps(node.keyStart, node.contents);
  }

  lemma KeyIndexGrows(starts: seq<nat>, keys: seq<Key>, k: Key, pos: nat)
    requires KeyIndexOf(starts, keys) && pos == KeysSize(keys) + 2 + |k|
    ensures KeyIndexOf(starts + [pos], keys + [k])
  {
    hide KeysSize, KeysBytes, KeyBytes;
    PushedKey(keys, k);
    var all := keys + [k];
    forall i | 0 <= i <= |all|
      ensures (starts + [pos])[i] == KeysSize(all[..i])
    {
      if i <= |keys| {
        assert (starts + [pos])[i] == starts[i] && all[..i] == keys[..i];
      } else {
        assert (starts + [pos])[i] == pos && all[..i] == all;
      }
    }
  }

  lemma KeyFieldAt(keys: seq<Key>, i: nat)
    requires i < |keys|
    ensures KeysSize(keys[..i]) + 2 <= KeysSize(keys[..i + 1]) <= |KeysBytes(keys)|
    ensures KeysBytes(keys)[KeysSize(keys[..i]) + 2..KeysSize(keys[..i + 1])] == keys[i]
  {
    hide KeysBytes, KeysSize;
    KeyAt(keys, i);
    SubSlice(KeysBytes(keys), KeysSize(keys[..i]), 2 + |keys[i]|, 2, 2 + |keys[i]|);
    assert KeyBytes(keys[i])[2..] == keys[i];
  }

  lemma NextKeyPush(keys: seq<Key>, k: nat)
    requires k < |keys| && KeysSize(keys) <= U16_MAX && Sorted(keys)
    ensures KeysSize(keys[..k]) + 2 + |keys[k]| <= U16_MAX
    ensures k > 0 ==> Less(keys[k - 1], keys[k])
    ensures keys[..k + 1] == keys[..k] + [keys[k]]
  {
    hide KeysSize, Less;
    KeysSizeNext(keys, k);
    KeysSizeSplit(keys, k + 1);
  }

  /* ---- Decoding ---- */

  ghost predicate ParsingKeys(all: Bytes, n: nat, i: nat, pos: nat, done: seq<Key>) {
    && i <= n && pos <= |all| && pos == KeysSize(done) && all[..pos] == KeysBytes(done)
    && ParseInner(all, n).Some?
    && ParseKeys(all, n).Some? && ParseKeys(all[pos..], n - i).Some?
    && var (rest, left) := ParseKeys(all[pos..], n - i).value;
    ParseKeys(all, n) == Some((done + rest, left))
  }

  lemma ParsingKeysStarts(all: Bytes, n: nat)
    requires ParseInner(all, n).Some?
    ensures ParsingKeys(all, n, 0, 0, [])
  {
    assert all[0..] == all;
    var keys := ParseKeys(all, n).value.0;
    assert [] + keys == keys;
  }

  lemma ParsingKeysGoesOn(all: Bytes, n: nat, i: nat, pos: nat, done: seq<Key>) returns (k: Key)
    requires ParsingKeys(all, n, i, pos, done) && i < n
    ensures pos == KeysSize(done) && pos + 2 + |k| <= |all|
    ensures FromLe(all[pos..pos + 2]) == |k|
    ensures ParsingKeys(all, n, i + 1, pos + 2 + |k|, done + [k])
  {
    hide Le, FromLe, KeysBytes, KeysSize, KeyBytes, ParseInner;
    var rest := all[pos..];
    k := FirstKey(rest).value;
    FirstKeyBytes(rest);
    PushedKey(done, k);
    var size := |k| + 2;
    assert rest[size..] == all[pos + size..];
    assert all[..pos + size] == all[..pos] + rest[..size];
    var tail := ParseKeys(all[pos + size..], n - i - 1).value.0;
    assert done + ([k] + tail) == done + [k] + tail;
    assert rest[..2] == all[pos..pos + 2];
  }

  lemma ParsingKeysEnds(all: Bytes, n: nat, pos: nat, done: seq<Key>)
    requires ParsingKeys(all, n, n, pos, done)
    ensures pos == KeysSize(done) <= |all| && all[..pos] == KeysBytes(done)
    ensures ParseIds(all[pos..], n + 1).Some?
    ensures ParseInner(all, n) == Some(InnerContent(done, ParseIds(all[pos..], n + 1).value))
  {
    assert done + [] == done;
  }

  /* ---- Operations ---- */

  method InternalChildIndex(node: InternalNode, key: Key) returns (r: nat)
    requires node.Valid() && Sorted(node.contents)
    ensures r == ChildRank(node.contents, key)
  {
    hide Less, Sorted;
    ghost var keys := node.contents;
    var lo, hi := 0, node.NKeys();
    while lo < hi
      invariant 0 <= lo <= hi <= |keys|
      invariant KeysAtMost(keys, lo, key) && KeysAbove(keys, hi, key)
    {
      var mid := lo + (hi - lo) / 2;
      if AtMost(node.GetKey(mid), key) {
        AtMostThrough(keys, mid, key);
        lo := mid + 1;
      } else {
        KeysAboveFrom(keys, mid, key);
        hi := mid;
      }
    }
    ChildRankIs(keys, key, lo);
    r := lo;
  }

  lemma AtMostThrough(keys: seq<Key>, mid: nat, key: Key)
    requires Sorted(keys) && mid < |keys| && AtMost(keys[mid], key)
    ensures KeysAtMost(keys, mid + 1, key)
  {
    hide Less, AtMost;
    forall j | 0 <= j < mid
      ensures AtMost(keys[j], key)
    {
      AtMostLess(keys[j], keys[mid], key);
      LessNotAbove(keys[j], key);
    }
  }

  lemma LessNotAbove(a: Key, b: Key)
    requires Less(a, b)
    ensures AtMost(a, b)
  {
    LessAsymmetric(a, b);
  }

  lemma KeysAboveFrom(keys: seq<Key>, mid: nat, key: Key)
    requires Sorted(keys) && mid < |keys| && Less(key, keys[mid])
    ensures KeysAbove(keys, mid, key)
  {
    hide Less;
    forall j | mid < j < |keys|
      ensures Less(key, keys[j])
    {
      LessTransitive(key, keys[mid], keys[j]);
    }
  }

  /** Any stretch of a sorted, short enough key list can be pushed onto an empty node. */
  lemma StretchPushable(keys: seq<Key>, from: nat, to: nat)
    requires KeysSize(keys) <= U16_MAX && Sorted(keys) && from <= to <= |keys|
    ensures [] + keys[from..to] == keys[from..to]
    ensures KeysSize(keys[from..to]) <= U16_MAX && Sorted(keys[from..to])
  {
    hide KeysSize, Less;
    KeysSizeSplit(keys, to);
    KeysSizeSplit(keys[..to], from);
    assert keys[..to][from..] == keys[from..to];
  }

  method InternalReplaceChild(node: InternalNode, idx: nat, newChild: PageId) returns (r: InternalNode)
    requires node.Complete() && Sorted(node.contents) && idx < node.NChildren()
    ensures fresh(r) && r.Complete() && r.contents == node.contents
    ensures r.children == node.children[idx := newChild]
  {
    hide KeysSize, Sorted, Less, KeyIndexOf, KeysBytes;
    StretchPushable(node.contents, 0, node.NKeys());
    assert node.contents[0..node.NKeys()] == node.contents;
    r := new InternalNode.Empty();
    r.PushKeys(node, 0, node.NKeys());
    for i := 0 to node.NChildren()
      invariant r.Valid() && r.contents == node.contents
      invariant r.children == node.children[idx := newChild][..i]
    {
      r.PushChild(if i == idx then newChild else node.children[i]);
    }
    assert node.children[idx := newChild][..|node.children|] == node.children[idx := newChild];
  }

  /** The keys and children once child `idx` has become `left` and `right` around `sep`. */
  function WithSplitChild(keys: seq<Key>, children: seq<PageId>, idx: nat, sep: Key, left: PageId, right: PageId): (r: Content)
    requires |children| == |keys| + 1 && idx <= |keys|
    ensures r.InnerContent? && |r.children| == |r.keys| + 1 == |keys| + 2
  {
    InnerContent(keys[..idx] + [sep] + keys[idx..], children[..idx] + [left, right] + children[idx + 1..])
  }

  method InternalInsertSplitChild(node: InternalNode, idx: nat, sep: Key, left: PageId, right: PageId)
    returns (r: InternalNode)
    requires node.Complete() && idx <= node.NKeys()
    requires KeysSize(node.contents) + 2 + |sep| <= U16_MAX
    requires Sorted(node.contents[..idx] + [sep] + node.contents[idx..])
    ensures fresh(r) && r.Complete()
    ensures r.Content() == WithSplitChild(node.contents, node.children, idx, sep, left, right)
  {
    hide KeysSize, Sorted, Less, InternalNode.Valid;
    r := KeysAround(node, idx, sep);
    r.PushChildren(node, 0, idx);
    r.PushChild(left);
    r.PushChild(right);
    r.PushChildren(node, idx + 1, node.NChildren());
    assert r.children == node.children[..idx] + [left, right] + node.children[idx + 1..];
  }

  /** A new node with another's keys and one more among them. */
  method KeysAround(node: InternalNode, idx: nat, sep: Key) returns (r: InternalNode)
    requires node.Valid() && idx <= node.NKeys()
    requires KeysSize(node.contents) + 2 + |sep| <= U16_MAX
    requires Sorted(node.contents[..idx] + [sep] + node.contents[idx..])
    ensures fresh(r) && r.Valid() && r.children == []
    ensures r.contents == node.contents[..idx] + [sep] + node.contents[idx..]
  {
    hide KeysSize, Sorted, Less, InternalNode.Valid;
    ghost var whole := node.contents[..idx] + [sep] + node.contents[idx..];
    SplicedKeysSize(node.contents, idx, sep);
    r := new InternalNode.Empty();
    StretchPushable(whole, 0, idx);
    assert node.contents[0..idx] == whole[0..idx] == whole[..idx];
    r.PushKeys(node, 0, idx);
    NextKeyPush(whole, idx);
    KeysLaidOut(r);
    r.PushKey(sep);
    assert r.contents + node.contents[idx..node.NKeys()] == whole;
    r.PushKeys(node, idx, node.NKeys());
  }

  lemma SplicedKeysSize(keys: seq<Key>, i: nat, sep: Key)
    requires i <= |keys|
    ensures KeysSize(keys[..i] + [sep] + keys[i..]) == KeysSize(keys) + 2 + |sep|
  {
    KeysSizeSplit(keys, i);
    KeysSizeConcat(keys[..i] + [sep], keys[i..]);
    PushedKey(keys[..i], sep);
  }

  method InternalSplitWithPromotion(grown: InternalNode, pageSize: nat)
    returns (left: InternalNode, promoted: Key, right: InternalNode)
    requires grown.Complete() && Sorted(grown.contents)
    requires OvergrownInner(grown.contents, pageSize) && pageSize <= MAX_PAGE_SIZE
    ensures fresh(left) && fresh(right) && left.Complete() && right.Complete()
    ensures |grown.contents| >= 2
    ensures var m := InnerCut(grown.contents, pageSize);
            && left.Content() == InnerContent(grown.contents[..m], grown.children[..m + 1])
            && promoted == grown.contents[m]
            && right.Content() == InnerContent(grown.contents[m + 1..], grown.children[m + 1..])
  {
    hide KeysSize, Less, OvergrownInner, InternalNode.Valid, Sorted, InnerLeft, InnerRight, InnerCut;
    ghost var keys := grown.contents;
    InnerSplitSucceeds(keys, pageSize);
    var np := grown.NKeys();
    var m := SplitPoint(grown, pageSize);
    left := Stretch(grown, 0, m);
    promoted := grown.GetKey(m);
    right := Stretch(grown, m + 1, np);
    assert keys[0..m] == keys[..m] && grown.children[0..m + 1] == grown.children[..m + 1];
    assert keys[m + 1..np] == keys[m + 1..] && grown.children[m + 1..np + 1] == grown.children[m + 1..];
  }

  /** The two correcting loops, starting from the middle. */
  method SplitPoint(grown: InternalNode, pageSize: nat) returns (m: nat)
    requires grown.Valid() && OvergrownInner(grown.contents, pageSize) && pageSize <= MAX_PAGE_SIZE
    ensures |grown.contents| >= 2 && m == InnerCut(grown.contents, pageSize)
  {
    hide KeysSize, OvergrownInner, InternalNode.Valid, InnerLeft, InnerRight, AsU16;
    ghost var keys := grown.contents;
    InnerSplitSucceeds(keys, pageSize);
    var np := grown.NKeys();
    m := np / 2;
    InnerSumsFit(keys, m, pageSize);
    while m >= 1 && grown.LeftBytes(m) > pageSize
      invariant m <= |keys| / 2 && InnerLeft(keys, m) <= U16_MAX
      invariant InnerDown(keys, |keys| / 2, pageSize) == InnerDown(keys, m, pageSize)
      decreases m
    {
      m := m - 1;
      InnerSumsFit(keys, m, pageSize);
    }
    InnerSumsFit(keys, m, pageSize);
    while m < np - 1 && grown.RightBytes(m) > pageSize
      invariant InnerDown(keys, |keys| / 2, pageSize) <= m < |keys| && InnerRight(keys, m) <= U16_MAX
      invariant InnerCut(keys, pageSize) == InnerUp(keys, m, pageSize)
      decreases |keys| - m
    {
      m := m + 1;
      InnerSumsFit(keys, m, pageSize);
    }
  }

  /** A new node with a stretch of another's keys and the children around them. */
  method Stretch(src: InternalNode, from: nat, to: nat) returns (r: InternalNode)
    requires src.Complete() && Sorted(src.contents) && from <= to <= src.NKeys()
    ensures fresh(r) && r.Complete()
    ensures r.contents == src.contents[from..to] && r.children == src.children[from..to + 1]
  {
    hide KeysSize, Less, InternalNode.Valid, Sorted;
    StretchPushable(src.contents, from, to) by {
      SrcSize(src);
    }
    r := new InternalNode.Empty();
    r.PushKeys(src, from, to);
    r.PushChildren(src, from, to + 1);
  }

  lemma SrcSize(src: InternalNode)
    requires src.Valid()
    ensures KeysSize(src.contents) <= U16_MAX
  {
  }
}
