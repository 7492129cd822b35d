/** Pages of the on-disk free-list chain. */
module FreeListPages {
  import opened Wrappers
  import opened ByteStrings
  import opened PageFormat

  /** Type tag, page id, next page id and count. */
  const FREE_LIST_HEADER: nat := 19

  function FreeListCapacity(pageSize: nat): nat
    requires pageSize >= FREE_LIST_HEADER
  {
    (pageSize - FREE_LIST_HEADER) / 8
  }

  /** A free-list page up to its padding. */
  function FreeListUnpadded(id: PageId, next: PageId, ids: seq<PageId>): (r: Bytes)
    ensures |r| == FREE_LIST_HEADER + 8 * |ids|
  {
    [PAGE_TYPE_FREE_LIST] + Le(id, 8) + Le(next, 8) + Le(AsU16(|ids|), 2) + IdsBytes(ids)
  }

  function FreeListBytes(id: PageId, next: PageId, ids: seq<PageId>, pageSize: nat): (r: Bytes)
    requires FREE_LIST_HEADER + 8 * |ids| <= pageSize
    ensures |r| == pageSize && FreeListUnpadded(id, next, ids) <= r
  {
    FreeListUnpadded(id, next, ids) + Zeros(pageSize - FREE_LIST_HEADER - 8 * |ids|)
  }

  /** The next page's id and the ids stored here, whatever the tag and id; `None` where a slice would be out of range. */
  function ReadFreeList(b: Bytes): Option<(PageId, seq<PageId>)> {
    if |b| < FREE_LIST_HEADER then None
    else
      match ParseIds(b[FREE_LIST_HEADER..], FromLe(b[17..19]))
      case None => None
      case Some(ids) => Some((FromLe(b[9..17]), ids))
  }

  /** With the source's debug assertions on tag and id. */
  function ParseFreeList(id: PageId, b: Bytes): Option<(PageId, seq<PageId>)> {
    if |b| < FREE_LIST_HEADER || b[0] != PAGE_TYPE_FREE_LIST || FromLe(b[1..9]) != id then None else ReadFreeList(b)
  }

  /** A free-list page decodes to what was encoded, whatever its padding. */
  lemma FreeListRoundTrip(id: PageId, next: PageId, ids: seq<PageId>, b: Bytes)
    requires id < U64_RANGE && next < U64_RANGE && |ids| <= U16_MAX
    requires forall i :: i in ids ==> i < U64_RANGE
    requires FreeListUnpadded(id, next, ids) <= b
    ensures ParseFreeList(id, b) == Some((next, ids))
  {
    hide Le, FromLe, IdsBytes, ParseIds;
    var u := FreeListUnpadded(id, next, ids);
    var rest := b[|u|..];
    assert b == u + rest;
    assert b[1..9] == u[1..9] == Le(id, 8);
    assert b[9..17] == u[9..17] == Le(next, 8);
    assert b[17..19] == u[17..19] == Le(|ids|, 2);
    assert b[FREE_LIST_HEADER..] == IdsBytes(ids) + rest;
    LeU64(id);
    LeU64(next);
    LeU16(|ids|);
    IdsRoundTrip(ids, rest);
  }

  method FreeListEncode(id: PageId, next: PageId, ids: seq<PageId>, pageSize: nat) returns (r: Bytes)
    requires FREE_LIST_HEADER <= pageSize && |ids| <= FreeListCapacity(pageSize)
    ensures r == FreeListBytes(id, next, ids, pageSize)
  {
    hide Le, AsU16;
    var buf := new Byte[pageSize](_ => 0);
    buf[0] := PAGE_TYPE_FREE_LIST;
    ghost var head: Bytes := [PAGE_TYPE_FREE_LIST];
    assert buf[..] == head + Zeros(pageSize - 1);
    CopyNext(buf, 1, Le(id, 8), head);
    head := head + Le(id, 8);
    CopyNext(buf, 9, Le(next, 8), head);
    head := head + Le(next, 8);
    CopyNext(buf, 17, Le(AsU16(|ids|), 2), head);
    head := head + Le(AsU16(|ids|), 2);
    WriteIds(buf, FREE_LIST_HEADER, ids, head);
    r := buf[..];
  }

  method FreeListDecode(expectedId: PageId, bytes: Bytes) returns (next: PageId, ids: seq<PageId>)
    requires ReadFreeList(bytes).Some?
    ensures ReadFreeList(bytes) == Some((next, ids))
    ensures ParseFreeList(expectedId, bytes).Some? ==> ParseFreeList(expectedId, bytes) == Some((next, ids))
  {
    hide FromLe, ParseIds, ParsingIds;
    next := FromLe(bytes[9..17]);
    var count := FromLe(bytes[17..19]);
    ghost var rest := bytes[FREE_LIST_HEADER..];
    ids := [];
    var pos: nat := FREE_LIST_HEADER;
    ParsingIdsStarts(rest, count);
    for i := 0 to count
      invariant ParsingIds(rest, count, i, ids) && pos == FREE_LIST_HEADER + 8 * i
    {
      ParsingIdsGoesOn(rest, count, i, ids);
      assert bytes[pos..pos + 8] == rest[8 * i..8 * i + 8];
      ids := ids + [FromLe(bytes[pos..pos + 8])];
      pos := pos + 8;
    }
    ParsingIdsEnds(rest, count, ids);
  }
}
