/**
  Layout constants of the page cache: the log-message header, the segment
  header, the inline/blob threshold, the reserved page ids and the
  consolidation threshold.
 */
module Constants {

  /** Largest value of a `u64`, the width of a page id. */
  const U64_MAX: nat := 0xFFFF_FFFF_FFFF_FFFF

  // ---------------------------------------------------------------------
  // Log-message header
  // ---------------------------------------------------------------------

  /** The fixed-width integer types the header fields are stored as. */
  datatype IntType = U8 | U32 | U64 | I64

  function Bits(t: IntType): nat
  {
    match t
    case U8 => 8
    case U32 => 32
    case U64 => 64
    case I64 => 64
  }

  /** The fields of a log-message header, in order. */
  datatype HeaderField = Kind | Pid | Lsn | Len | Crc

  function FieldType(f: HeaderField): IntType
  {
    match f
    case Kind => U8
    case Pid => U64
    case Lsn => I64
    case Len => U64
    case Crc => U32
  }

  /** Number of bytes a field occupies: its type's width in bits over eight. */
  function Width(f: HeaderField): nat
  {
    Bits(FieldType(f)) / 8
  }

  /** The header as it is laid out: kind, page id, LSN, payload length, CRC. */
  const MESSAGE_HEADER: seq<HeaderField> := [Kind, Pid, Lsn, Len, Crc]

  /** Total number of bytes a sequence of fields occupies. */
  function Span(fs: seq<HeaderField>): nat
  {
    if fs == [] then 0 else Width(fs[0]) + Span(fs[1..])
  }

  /** Log messages have a header of at most this many bytes. */
  const MAX_MSG_HEADER_LEN: nat := 29

  /** Log segments start with a header of this many bytes. */
  const SEG_HEADER_LEN: nat := 20

  /** The declared maximum is exactly the sum of the field widths. */
  lemma HeaderLenIsFieldSum()
    ensures Span(MESSAGE_HEADER) == MAX_MSG_HEADER_LEN
    ensures Width(Kind) == 1 && Width(Pid) == 8 && Width(Lsn) == 8
    ensures Width(Len) == 8 && Width(Crc) == 4
  {
    assert MESSAGE_HEADER[1..] == [Pid, Lsn, Len, Crc];
    assert MESSAGE_HEADER[2..] == [Lsn, Len, Crc];
    assert MESSAGE_HEADER[3..] == [Len, Crc];
    assert MESSAGE_HEADER[4..] == [Crc];
  }

  /** Splitting a field list splits its span. */
  lemma {:induction false} SpanAppend(a: seq<HeaderField>, b: seq<HeaderField>)
    ensures Span(a + b) == Span(a) + Span(b)
  {
    if a == [] {
      assert a + b == b;
    } else {
      assert (a + b)[1..] == a[1..] + b;
      SpanAppend(a[1..], b);
    }
  }

  /** Where the `i`-th header field starts: the bytes of the fields before it. */
  function Offset(i: nat): nat
    requires i <= |MESSAGE_HEADER|
  {
    Span(MESSAGE_HEADER[..i])
  }

  /**
    The header fields sit back to back at offsets 0, 1, 9, 17 and 25, and
    the CRC, the last of them, ends exactly at MAX_MSG_HEADER_LEN.
   */
  lemma HeaderOffsets()
    ensures Offset(0) == 0 && Offset(1) == 1 && Offset(2) == 9
    ensures Offset(3) == 17 && Offset(4) == 25
    ensures Offset(4) + Width(MESSAGE_HEADER[4]) == MAX_MSG_HEADER_LEN
  {
    HeaderLenIsFieldSum();
    var h := MESSAGE_HEADER;
    assert h[..1] == [Kind];
    assert h[..2] == [Kind] + [Pid];
    assert h[..3] == h[..2] + [Lsn];
    assert h[..4] == h[..3] + [Len];
    SpanAppend([Kind], [Pid]);
    SpanAppend(h[..2], [Lsn]);
    SpanAppend(h[..3], [Len]);
  }

  // ---------------------------------------------------------------------
  // Inline items and blobs
  // ---------------------------------------------------------------------

  /**
    The divisor of the blob threshold: payloads above a quarter of an io
    buffer go off-log, so that four inline payloads always share a buffer.
   */
  const MINIMUM_ITEMS_PER_SEGMENT: nat := 4

  /** Whether an item of `size` bytes is stored off-log for io buffers of `ioBufSize` bytes. */
  predicate IsBlob(size: nat, ioBufSize: nat)
  {
    size > ioBufSize / MINIMUM_ITEMS_PER_SEGMENT
  }

  /**
    An item becomes a blob exactly when MINIMUM_ITEMS_PER_SEGMENT copies of
    it would not fit in one io buffer.
   */
  lemma BlobIffQuotaOverflows(size: nat, ioBufSize: nat)
    ensures IsBlob(size, ioBufSize) <==> MINIMUM_ITEMS_PER_SEGMENT * size > ioBufSize
  {
    var q := ioBufSize / MINIMUM_ITEMS_PER_SEGMENT;
    assert ioBufSize == MINIMUM_ITEMS_PER_SEGMENT * q + ioBufSize % MINIMUM_ITEMS_PER_SEGMENT;
  }

  function Sum(sizes: seq<nat>): nat
  {
    if sizes == [] then 0 else sizes[0] + Sum(sizes[1..])
  }

  lemma {:induction false} SumOfInline(sizes: seq<nat>, ioBufSize: nat)
    requires forall i :: 0 <= i < |sizes| ==> !IsBlob(sizes[i], ioBufSize)
    ensures Sum(sizes) <= |sizes| * (ioBufSize / MINIMUM_ITEMS_PER_SEGMENT)
  {
    if sizes != [] {
      assert !IsBlob(sizes[0], ioBufSize);
      SumOfInline(sizes[1..], ioBufSize);
    }
  }

  /**
    The payloads of up to MINIMUM_ITEMS_PER_SEGMENT inline items always fit
    in one io buffer together. Message and segment headers are not counted.
   */
  lemma InlineItemsFit(sizes: seq<nat>, ioBufSize: nat)
    requires |sizes| <= MINIMUM_ITEMS_PER_SEGMENT
    requires forall i :: 0 <= i < |sizes| ==> !IsBlob(sizes[i], ioBufSize)
    ensures Sum(sizes) <= ioBufSize
  {
    var q := ioBufSize / MINIMUM_ITEMS_PER_SEGMENT;
    SumOfInline(sizes, ioBufSize);
    assert |sizes| * q <= MINIMUM_ITEMS_PER_SEGMENT * q;
  }

  // ---------------------------------------------------------------------
  // Reserved page ids
  // ---------------------------------------------------------------------

  /** The page holding the name -> root page id directory. */
  const META_PID: nat := 0
  /** The page holding the allocation counter. */
  const COUNTER_PID: nat := 1
  /** Bookkeeping sentinel for batch commits; never a real page. */
  const BATCH_MANIFEST_PID: nat := U64_MAX - 666

  predicate IsReserved(pid: nat)
  {
    pid == META_PID || pid == COUNTER_PID || pid == BATCH_MANIFEST_PID
  }

  /** The reserved ids are pairwise distinct and all fit in a `u64`. */
  lemma ReservedPidsDistinct()
    ensures META_PID != COUNTER_PID && COUNTER_PID != BATCH_MANIFEST_PID
    ensures META_PID != BATCH_MANIFEST_PID
    ensures 666 <= U64_MAX && BATCH_MANIFEST_PID <= U64_MAX
  {
  }

  /** A fragment chain longer than this many deltas is consolidated into a new base. */
  const PAGE_CONSOLIDATION_THRESHOLD: nat := 10
}
