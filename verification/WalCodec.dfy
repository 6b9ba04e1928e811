/**
 The byte format of one write-ahead-log record: a 36-byte big-endian header
 (magic, version, kind, flags, sequence, admission time, payload length,
 checksum) followed by the opaque payload.  The checksum function is a
 parameter, so every statement holds for all of them.
 */
module WalCodec {
  import opened Prelude
  import opened WalScan

  type uint32 = i: nat | i < U32

  const U32: nat := 0x1_0000_0000
  const U64: nat := 0x1_0000_0000_0000_0000
  const VERSION: nat := 1
  const MAGIC: bytes := [0x4D, 0x53, 0x57, 0x41, 0x4C, 0x30, 0x30, 0x31]

  // ----- fixed-width big-endian integers -----

  function Pow256(k: nat): (p: nat)
    ensures p > 0
  {
    if k == 0 then 1 else 256 * Pow256(k - 1)
  }

  lemma PowValues()
    ensures Pow256(1) == 256
    ensures Pow256(2) == 0x1_0000
    ensures Pow256(4) == U32
    ensures Pow256(8) == U64
  {
    assert Pow256(0) == 1;
    assert Pow256(3) == 256 * Pow256(2);
    assert Pow256(5) == 256 * Pow256(4);
    assert Pow256(6) == 256 * Pow256(5);
    assert Pow256(7) == 256 * Pow256(6);
  }

  function BigEndian(n: nat, k: nat): (b: bytes)
    ensures |b| == k
  {
    if k == 0 then [] else BigEndian(n / 256, k - 1) + [(n % 256) as uint8]
  }

  function FromBigEndian(b: bytes): (n: nat)
  {
    if b == [] then 0 else 256 * FromBigEndian(b[..|b| - 1]) + b[|b| - 1] as int
  }

  lemma {:induction false} FromBigEndianBound(b: bytes)
    ensures FromBigEndian(b) < Pow256(|b|)
  {
    if b != [] {
      FromBigEndianBound(b[..|b| - 1]);
    }
  }

  /** The first byte is the most significant one. */
  lemma {:induction false} MostSignificantFirst(a: uint8, b: bytes)
    ensures FromBigEndian([a] + b) == a as int * Pow256(|b|) + FromBigEndian(b)
  {
    if b == [] {
      assert [a] + b == [a] && [a][..0] == [];
    } else {
      var m := |b| - 1;
      MostSignificantFirst(a, b[..m]);
      assert ([a] + b)[..|b|] == [a] + b[..m];
      assert a as int * Pow256(|b|) == 256 * (a as int * Pow256(m));
    }
  }

  /** Decoding inverts encoding on every value that fits the width. */
  lemma {:induction false} BigEndianRoundTrip(n: nat, k: nat)
    requires n < Pow256(k)
    ensures FromBigEndian(BigEndian(n, k)) == n
  {
    if k > 0 {
      BigEndianRoundTrip(n / 256, k - 1);
      var b := BigEndian(n, k);
      assert b[..|b| - 1] == BigEndian(n / 256, k - 1);
    }
  }

  /** Encoding inverts decoding on every byte string. */
  lemma {:induction false} BigEndianCanonical(b: bytes)
    ensures BigEndian(FromBigEndian(b), |b|) == b
  {
    if b != [] {
      BigEndianCanonical(b[..|b| - 1]);
      assert FromBigEndian(b) / 256 == FromBigEndian(b[..|b| - 1]);
      assert FromBigEndian(b) % 256 == b[|b| - 1] as int;
      assert b == b[..|b| - 1] + [b[|b| - 1]];
    }
  }

  // ----- headers -----

  datatype Header = Header(
    version: nat, kind: nat, flags: nat, sequence: nat, recordedAt: nat, length: nat, crc: nat)

  predicate HeaderFits(h: Header) {
    h.version < 0x1_0000 && h.kind < 256 && h.flags < 256 && h.sequence < U64 &&
    h.recordedAt < U64 && h.length < U32 && h.crc < U32
  }

  /** Bytes 8..32, which the checksum covers together with the payload. */
  function Metadata(version: nat, kind: nat, flags: nat, sequence: nat, recordedAt: nat, length: nat): (b: bytes)
    ensures |b| == 24
  {
    BigEndian(version, 2) + BigEndian(kind, 1) + BigEndian(flags, 1) + BigEndian(sequence, 8)
      + BigEndian(recordedAt, 8) + BigEndian(length, 4)
  }

  function EncodeHeader(h: Header): (b: bytes)
    ensures |b| == HEADER_BYTES
  {
    MAGIC + Metadata(h.version, h.kind, h.flags, h.sequence, h.recordedAt, h.length) + BigEndian(h.crc, 4)
  }

  function DecodeHeader(b: bytes): (h: Header)
    requires |b| == HEADER_BYTES
  {
    Header(FromBigEndian(b[8..10]), FromBigEndian(b[10..11]), FromBigEndian(b[11..12]),
           FromBigEndian(b[12..20]), FromBigEndian(b[20..28]), FromBigEndian(b[28..32]),
           FromBigEndian(b[32..36]))
  }

  lemma MetadataSlices(version: nat, kind: nat, flags: nat, sequence: nat, recordedAt: nat, length: nat)
    ensures var m := Metadata(version, kind, flags, sequence, recordedAt, length);
      && m[0..2] == BigEndian(version, 2) && m[2..3] == BigEndian(kind, 1) && m[3..4] == BigEndian(flags, 1)
      && m[4..12] == BigEndian(sequence, 8) && m[12..20] == BigEndian(recordedAt, 8)
      && m[20..24] == BigEndian(length, 4)
  {
  }

  lemma HeaderSlices(h: Header)
    ensures var b := EncodeHeader(h);
      && b[..8] == MAGIC && b[8..32] == Metadata(h.version, h.kind, h.flags, h.sequence, h.recordedAt, h.length)
      && b[8..10] == BigEndian(h.version, 2) && b[10..11] == BigEndian(h.kind, 1) && b[11..12] == BigEndian(h.flags, 1)
      && b[12..20] == BigEndian(h.sequence, 8) && b[20..28] == BigEndian(h.recordedAt, 8)
      && b[28..32] == BigEndian(h.length, 4) && b[32..36] == BigEndian(h.crc, 4)
  {
    MetadataSlices(h.version, h.kind, h.flags, h.sequence, h.recordedAt, h.length);
    var b := EncodeHeader(h);
    var m := Metadata(h.version, h.kind, h.flags, h.sequence, h.recordedAt, h.length);
    assert b[8..32] == m;
    assert b[8..10] == m[0..2] && b[10..11] == m[2..3] && b[11..12] == m[3..4];
    assert b[12..20] == m[4..12] && b[20..28] == m[12..20] && b[28..32] == m[20..24];
  }

  lemma HeaderRoundTrip(h: Header)
    requires HeaderFits(h)
    ensures DecodeHeader(EncodeHeader(h)) == h
  {
    HeaderSlices(h);
    PowValues();
    BigEndianRoundTrip(h.version, 2);
    BigEndianRoundTrip(h.kind, 1);
    BigEndianRoundTrip(h.flags, 1);
    BigEndianRoundTrip(h.sequence, 8);
    BigEndianRoundTrip(h.recordedAt, 8);
    BigEndianRoundTrip(h.length, 4);
    BigEndianRoundTrip(h.crc, 4);
  }

  /** Every 36 bytes that start with the magic are the encoding of what they decode to. */
  lemma HeaderCanonical(b: bytes)
    requires |b| == HEADER_BYTES && b[..8] == MAGIC
    ensures HeaderFits(DecodeHeader(b))
    ensures EncodeHeader(DecodeHeader(b)) == b
  {
    BigEndianCanonical(b[8..10]);
    BigEndianCanonical(b[10..11]);
    BigEndianCanonical(b[11..12]);
    BigEndianCanonical(b[12..20]);
    BigEndianCanonical(b[20..28]);
    BigEndianCanonical(b[28..32]);
    BigEndianCanonical(b[32..36]);
    PowValues();
    FromBigEndianBound(b[8..10]);
    FromBigEndianBound(b[10..11]);
    FromBigEndianBound(b[11..12]);
    FromBigEndianBound(b[12..20]);
    FromBigEndianBound(b[20..28]);
    FromBigEndianBound(b[28..32]);
    FromBigEndianBound(b[32..36]);
    var h := DecodeHeader(b);
    assert Metadata(h.version, h.kind, h.flags, h.sequence, h.recordedAt, h.length) == b[8..32];
  }

  // ----- records -----

  /** What a log directory fixes: its kind, its payload bound and the checksum. */
  datatype Format = Format(kind: nat, maxRecordBytes: nat, crc: bytes -> uint32)

  predicate Storable(f: Format, r: Record) {
    1 <= f.kind <= 5 && r.sequence < U64 && 0 < r.recordedAt < U64 &&
    |r.payload| <= f.maxRecordBytes && |r.payload| < U32
  }

  function Checksum(f: Format, r: Record): uint32 {
    f.crc(Metadata(VERSION, f.kind, 0, r.sequence, r.recordedAt, |r.payload|) + r.payload)
  }

  function HeaderOf(f: Format, r: Record): Header {
    Header(VERSION, f.kind, 0, r.sequence, r.recordedAt, |r.payload|, Checksum(f, r))
  }

  function EncodeRecord(f: Format, r: Record): (b: bytes)
    ensures |b| == HEADER_BYTES + |r.payload|
  {
    EncodeHeader(HeaderOf(f, r)) + r.payload
  }

  predicate HeaderValid(f: Format, b: bytes, expected: nat)
    requires |b| == HEADER_BYTES
  {
    var h := DecodeHeader(b);
    b[..8] == MAGIC && h.version == VERSION && 1 <= h.kind <= 5 && h.kind == f.kind && h.flags == 0 &&
    h.sequence == expected && h.recordedAt != 0 && h.length <= f.maxRecordBytes
  }

  /** Read the record at the front of `b`; `last` is the admission time before it. */
  function ParseOne(f: Format, b: bytes, expected: nat, last: nat): Parsed {
    if |b| < HEADER_BYTES then Torn(0)
    else if !HeaderValid(f, b[..HEADER_BYTES], expected) then Bad(Corrupt)
    else
      var h := DecodeHeader(b[..HEADER_BYTES]);
      if h.recordedAt < last then Bad(ClockUnprovable)
      else if |b| < HEADER_BYTES + h.length then Torn(h.recordedAt)
      else
        var payload := b[HEADER_BYTES..HEADER_BYTES + h.length];
        if f.crc(b[8..32] + payload) != h.crc then Bad(Corrupt)
        else One(Record(expected, h.recordedAt, payload))
  }

  /** Read the header at the front of `b` and nothing else. */
  function PeekOne(f: Format, b: bytes, expected: nat): Peeked {
    if |b| < HEADER_BYTES then Short
    else if !HeaderValid(f, b[..HEADER_BYTES], expected) then Wrong(Corrupt)
    else
      var h := DecodeHeader(b[..HEADER_BYTES]);
      Head(h.recordedAt, h.length)
  }

  /** The header of a storable record passes every header check. */
  lemma EncodedHeaderValid(f: Format, r: Record)
    requires Storable(f, r)
    ensures HeaderValid(f, EncodeHeader(HeaderOf(f, r)), r.sequence)
    ensures DecodeHeader(EncodeHeader(HeaderOf(f, r))) == HeaderOf(f, r)
  {
    HeaderRoundTrip(HeaderOf(f, r));
    HeaderSlices(HeaderOf(f, r));
  }

  lemma ParseEncoded(f: Format, r: Record, rest: bytes, last: nat)
    requires Storable(f, r) && last <= r.recordedAt
    ensures ParseOne(f, EncodeRecord(f, r) + rest, r.sequence, last) == One(r)
  {
    EncodedHeaderValid(f, r);
    HeaderSlices(HeaderOf(f, r));
    var b := EncodeRecord(f, r) + rest;
    assert b[..HEADER_BYTES] == EncodeHeader(HeaderOf(f, r));
    assert b[8..32] == EncodeHeader(HeaderOf(f, r))[8..32];
    assert b[HEADER_BYTES..HEADER_BYTES + |r.payload|] == r.payload;
  }

  lemma PeekEncoded(f: Format, r: Record, rest: bytes)
    requires Storable(f, r)
    ensures PeekOne(f, EncodeRecord(f, r) + rest, r.sequence) == Head(r.recordedAt, |r.payload|)
  {
    EncodedHeaderValid(f, r);
    assert (EncodeRecord(f, r) + rest)[..HEADER_BYTES] == EncodeHeader(HeaderOf(f, r));
  }

  /** A record cut short anywhere reads as torn, never as corrupt; its time shows once its header is whole. */
  lemma ParseTorn(f: Format, r: Record, k: nat, last: nat)
    requires Storable(f, r) && last <= r.recordedAt && k < |EncodeRecord(f, r)|
    ensures ParseOne(f, EncodeRecord(f, r)[..k], r.sequence, last) == Torn(SeenIn(r, k))
  {
    if k >= HEADER_BYTES {
      EncodedHeaderValid(f, r);
      assert EncodeRecord(f, r)[..k][..HEADER_BYTES] == EncodeHeader(HeaderOf(f, r));
    }
  }

  /** Whatever parses as a record is exactly the encoding of that record. */
  lemma ParseSound(f: Format, b: bytes, expected: nat, last: nat)
    requires ParseOne(f, b, expected, last).One?
    ensures var r := ParseOne(f, b, expected, last).record;
      && Storable(f, r) && r.sequence == expected && last <= r.recordedAt
      && |EncodeRecord(f, r)| <= |b| && b[..|EncodeRecord(f, r)|] == EncodeRecord(f, r)
  {
    var r := ParseOne(f, b, expected, last).record;
    var head := b[..HEADER_BYTES];
    HeaderCanonical(head);
    HeaderSlices(DecodeHeader(head));
    SplitAt(b, HEADER_BYTES, HEADER_BYTES + |r.payload|);
    assert b[8..32] == head[8..32];
    hide BigEndian, FromBigEndian, EncodeHeader, Pow256;
    assert head == EncodeHeader(HeaderOf(f, r));
  }

  /** Where everything stands in the bytes of a record, and what its checksum covers. */
  lemma RecordLayout(f: Format, r: Record)
    requires Storable(f, r)
    ensures var b := EncodeRecord(f, r);
      && b[..8] == [0x4D, 0x53, 0x57, 0x41, 0x4C, 0x30, 0x30, 0x31] && FromBigEndian(b[8..10]) == 1
      && FromBigEndian(b[10..11]) == f.kind && FromBigEndian(b[11..12]) == 0 && FromBigEndian(b[12..20]) == r.sequence
      && FromBigEndian(b[20..28]) == r.recordedAt && FromBigEndian(b[28..32]) == |r.payload|
      && FromBigEndian(b[32..36]) == f.crc(b[8..32] + r.payload) && b[36..] == r.payload
  {
    var h := HeaderOf(f, r);
    EncodedHeaderValid(f, r);
    HeaderSlices(h);
    var head, b := EncodeHeader(h), EncodeRecord(f, r);
    hide EncodeHeader, FromBigEndian, BigEndian, Metadata, Pow256;
    assert b[36..] == r.payload;
    assert b[..36] == head && b[..8] == head[..8] && b[8..32] == head[8..32];
    assert b[8..10] == head[8..10] && b[10..11] == head[10..11] && b[11..12] == head[11..12];
    assert b[12..20] == head[12..20] && b[20..28] == head[20..28] && b[28..32] == head[28..32] && b[32..36] == head[32..36];
  }

  /**
   Bytes are put down to a crash only if they are too few for a header, or for the payload
   that a header right in every other field announces; all else that is wrong is refused.
   */
  lemma TornExactly(f: Format, b: bytes, expected: nat, last: nat)
    ensures ParseOne(f, b, expected, last).Torn? <==>
      || |b| < 36
      || (&& b[..8] == [0x4D, 0x53, 0x57, 0x41, 0x4C, 0x30, 0x30, 0x31] && FromBigEndian(b[8..10]) == 1
          && 1 <= FromBigEndian(b[10..11]) == f.kind <= 5 && FromBigEndian(b[11..12]) == 0
          && FromBigEndian(b[12..20]) == expected && 0 < FromBigEndian(b[20..28]) && last <= FromBigEndian(b[20..28])
          && |b| - 36 < FromBigEndian(b[28..32]) <= f.maxRecordBytes)
  {
    if |b| >= HEADER_BYTES {
      var head := b[..36];
      hide FromBigEndian;
      assert b[..8] == head[..8] && b[8..10] == head[8..10] && b[10..11] == head[10..11] && b[11..12] == head[11..12];
      assert b[12..20] == head[12..20] && b[20..28] == head[20..28] && b[28..32] == head[28..32];
    }
  }

  // ----- the framing of this log -----

  function WalFraming(f: Format): Framing {
    Framing(r => Storable(f, r), r => EncodeRecord(f, r),
            (b: bytes, expected: nat, last: nat) => ParseOne(f, b, expected, last),
            (b: bytes, expected: nat) => PeekOne(f, b, expected))
  }

  /** The 36-byte checksummed framing meets every law the log relies on. */
  lemma WalFramingLawful(f: Format)
    ensures Lawful(WalFraming(f))
  {
    var c := WalFraming(f);
    forall i ensures Law(c, i) {
      match i
      case Size(r) =>
      case Whole(r, rest, last) =>
        if Storable(f, r) && last <= r.recordedAt { ParseEncoded(f, r, rest, last); }
      case Cut(r, k, last) =>
        if Storable(f, r) && last <= r.recordedAt && k < |EncodeRecord(f, r)| { ParseTorn(f, r, k, last); }
      case Back(b, expected, last) =>
        if ParseOne(f, b, expected, last).One? { ParseSound(f, b, expected, last); }
      case Peek(r, rest) =>
        if Storable(f, r) { PeekEncoded(f, r, rest); }
    }
  }
}
