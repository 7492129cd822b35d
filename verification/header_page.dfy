/** The header page: what a commit records and a reopening reads. */
module HeaderPages {
  import opened ByteStrings
  import opened PageFormat

  const HEADER_PAGE_ID: PageId := 0
  const HEADER_BYTES: nat := 49

  /** "HWBTREE1" */
  const FORMAT_SIGNATURE: Bytes := [0x48, 0x57, 0x42, 0x54, 0x52, 0x45, 0x45, 0x31]

  const VERSION: nat := 2

  datatype Header = Header(pageSize: nat, rootId: PageId, nextPageId: nat, freeListHead: PageId, freeCount: nat)

  datatype HeaderResult =
    | Decoded(header: Header)
    | NotAHeader
    | VersionMismatch(found: nat)

  function NewHeader(pageSize: nat, rootId: PageId, nextPageId: nat): Header {
    Header(pageSize, rootId, nextPageId, 0, 0)
  }

  function HeaderFields(h: Header): (r: Bytes)
    ensures |r| == HEADER_BYTES
  {
    [PAGE_TYPE_HEADER] + FORMAT_SIGNATURE + Le(VERSION, 4) + Le(h.pageSize, 4) + Le(h.rootId, 8)
    + Le(h.nextPageId, 8) + Le(h.freeListHead, 8) + Le(h.freeCount, 8)
  }

  function HeaderPage(h: Header, pageSize: nat): (r: Bytes)
    requires pageSize >= HEADER_BYTES
    ensures |r| == pageSize
  {
    HeaderFields(h) + Zeros(pageSize - HEADER_BYTES)
  }

  function FromBytes(b: Bytes): HeaderResult {
    if |b| < HEADER_BYTES || b[0] != PAGE_TYPE_HEADER || b[1..9] != FORMAT_SIGNATURE then NotAHeader
    else
      var version := FromLe(b[9..13]);
      if version != VERSION then VersionMismatch(version)
      else Decoded(Header(FromLe(b[13..17]), FromLe(b[17..25]), FromLe(b[25..33]), FromLe(b[33..41]), FromLe(b[41..49])))
  }

  /** Every field of the header fits its place in the page. */
  predicate Representable(h: Header) {
    && h.pageSize < 0x1_0000_0000
    && h.rootId < U64_RANGE && h.nextPageId < U64_RANGE && h.freeListHead < U64_RANGE && h.freeCount < U64_RANGE
  }

  /** A header page decodes to the header exactly when every field fits. */
  lemma HeaderRoundTrip(h: Header, pageSize: nat)
    requires pageSize >= HEADER_BYTES
    ensures FromBytes(HeaderPage(h, pageSize)) == Decoded(h) <==> Representable(h)
  {
    hide Le, FromLe;
    CapacityValues();
    var b := HeaderPage(h, pageSize);
    HeaderSlices(h, pageSize);
    LeRoundTrip(VERSION, 4);
    LeRoundTrip(h.pageSize, 4);
    LeRoundTrip(h.rootId, 8);
    LeRoundTrip(h.nextPageId, 8);
    LeRoundTrip(h.freeListHead, 8);
    LeRoundTrip(h.freeCount, 8);
  }

  lemma HeaderSlices(h: Header, pageSize: nat)
    requires pageSize >= HEADER_BYTES
    ensures var b := HeaderPage(h, pageSize);
            && b[0] == PAGE_TYPE_HEADER && b[1..9] == FORMAT_SIGNATURE && b[9..13] == Le(VERSION, 4)
            && b[13..17] == Le(h.pageSize, 4) && b[17..25] == Le(h.rootId, 8) && b[25..33] == Le(h.nextPageId, 8)
            && b[33..41] == Le(h.freeListHead, 8) && b[41..49] == Le(h.freeCount, 8)
  {
    hide Le;
  }

  /** A page that was never written, or holds another kind of page, is not a header. */
  lemma OtherPagesAreNotHeaders(b: Bytes)
    requires b == Zeros(|b|) || (|b| > 0 && b[0] != PAGE_TYPE_HEADER)
    ensures FromBytes(b) == NotAHeader
  {
  }

  method ToBytes(h: Header, pageSize: nat) returns (r: Bytes)
    requires pageSize >= HEADER_BYTES
    ensures r == HeaderPage(h, pageSize)
  {
    hide Le;
    var buf := new Byte[pageSize](_ => 0);
    buf[0] := PAGE_TYPE_HEADER;
    ghost var head: Bytes := [PAGE_TYPE_HEADER];
    assert buf[..] == head + Zeros(pageSize - 1);
    CopyNext(buf, 1, FORMAT_SIGNATURE, head);
    head := head + FORMAT_SIGNATURE;
    CopyNext(buf, 9, Le(VERSION, 4), head);
    head := head + Le(VERSION, 4);
    CopyNext(buf, 13, Le(h.pageSize, 4), head);
    head := head + Le(h.pageSize, 4);
    CopyNext(buf, 17, Le(h.rootId, 8), head);
    head := head + Le(h.rootId, 8);
    CopyNext(buf, 25, Le(h.nextPageId, 8), head);
    head := head + Le(h.nextPageId, 8);
    CopyNext(buf, 33, Le(h.freeListHead, 8), head);
    head := head + Le(h.freeListHead, 8);
    CopyNext(buf, 41, Le(h.freeCount, 8), head);
    r := buf[..];
  }
}
