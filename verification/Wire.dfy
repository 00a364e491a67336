/** The DATA and FEC datagram formats. */
module Wire {
  import opened Words
  import opened BigEndian

  const VERSION := 1
  const TYPE_DATA: Byte := 0
  const TYPE_CTRL: Byte := 3
  const TYPE_FEC: Byte := 4
  const MAX_TYPE := 7
  const CLASS_BULK: Byte := 0
  const HEADER_SIZE := 4
  const DATA_HEADER_SIZE := 20
  const DATA_HEADER_FEC_SIZE := 24
  const FEC_HEADER_SIZE := 16

  datatype Error = ShortBuffer | BadVersion | BadType
  datatype Result<+T> = Ok(value: T) | Err(error: Error)

  /** The 4-byte prefix of every datagram. */
  datatype Header = Header(typ: Byte, flags: Byte, pathId: Byte, epoch: Byte)

  predicate HasFecInfo(flags: Byte) {
    flags / 2 % 2 == 1
  }

  /** The traffic class in bits 2 and 3 of the flags. */
  function Class(flags: Byte): Byte {
    flags / 4 % 4
  }

  /** The flags of a DATA datagram: class, FEC bit and duplicate bit. */
  function DataFlags(cls: Byte, fec: bool, dup: bool): Byte {
    cls % 4 * 4 + (if fec then 2 else 0) + (if dup then 1 else 0)
  }

  /** The three parts of the flags are read back independently of each other. */
  lemma FlagsRoundTrip(cls: Byte, fec: bool, dup: bool)
    ensures Class(DataFlags(cls, fec, dup)) == cls % 4 && HasFecInfo(DataFlags(cls, fec, dup)) == fec
    ensures DataFlags(cls, fec, dup) % 2 == (if dup then 1 else 0)
  {
  }

  function HeaderBytes(h: Header): (b: Bytes)
    ensures |b| == HEADER_SIZE
  {
    [VERSION * 16 + h.typ % 16, h.flags, h.pathId, h.epoch]
  }

  function ParseHeader(b: Bytes): Result<Header> {
    if |b| < HEADER_SIZE then Err(ShortBuffer)
    else if b[0] / 16 != VERSION then Err(BadVersion)
    else if b[0] % 16 > MAX_TYPE then Err(BadType)
    else Ok(Header(b[0] % 16, b[1], b[2], b[3]))
  }

  lemma HeaderRoundTrip(h: Header, rest: Bytes)
    ensures ParseHeader(HeaderBytes(h) + rest) ==
            if h.typ % 16 > 7 then Err(BadType) else Ok(h.(typ := h.typ % 16))
  {
  }

  lemma HeaderUnique(b: Bytes)
    requires ParseHeader(b).Ok?
    ensures |b| >= HEADER_SIZE && HeaderBytes(ParseHeader(b).value) == b[..HEADER_SIZE]
    ensures ParseHeader(b).value.typ <= MAX_TYPE
  {
  }

  // ----- DATA -----

  datatype DataHeader = DataHeader(header: Header, session: U32, globalSeq: U32, pathSeq: U32, txTs: U32,
                                   fecGroup: U32, fecIndex: Byte)

  function DataLen(flags: Byte): nat {
    if HasFecInfo(flags) then DATA_HEADER_FEC_SIZE else DATA_HEADER_SIZE
  }

  function FecInfo(flags: Byte, group: U32, index: Byte): Bytes {
    if HasFecInfo(flags) then PutU24(group % 0x100_0000) + [index] else []
  }

  function DataHeaderBytes(d: DataHeader): (b: Bytes)
    ensures |b| == DataLen(d.header.flags)
  {
    HeaderBytes(d.header) + PutU32(d.session) + PutU32(d.globalSeq) + PutU32(d.pathSeq) + PutU32(d.txTs)
    + FecInfo(d.header.flags, d.fecGroup, d.fecIndex)
  }

  function ParseData(b: Bytes): Result<(DataHeader, Bytes)> {
    match ParseHeader(b)
    case Err(e) => Err(e)
    case Ok(h) =>
      if h.typ != TYPE_DATA then Err(BadType)
      else if |b| < DataLen(h.flags) then Err(ShortBuffer)
      else
        var fec := HasFecInfo(h.flags);
        Ok((DataHeader(h, GetU32(b[4..]), GetU32(b[8..]), GetU32(b[12..]), GetU32(b[16..]),
                       if fec then GetU24(b[20..]) else 0, if fec then b[23] else 0),
            b[DataLen(h.flags)..]))
  }

  /** Headers with one representation: 24-bit group, no FEC fields without the flag. */
  predicate CanonicalData(d: DataHeader) {
    && d.header.typ == TYPE_DATA
    && d.fecGroup < 0x100_0000
    && (!HasFecInfo(d.header.flags) ==> d.fecGroup == 0 && d.fecIndex == 0)
  }

  // Reading a word behind a prefix.
  lemma ReadU32(b: Bytes, at: nat, x: U32, rest: Bytes)
    requires at <= |b| && b[at..] == PutU32(x) + rest
    ensures |b| >= at + 4 && GetU32(b[at..]) == x && b[at + 4..] == rest
  {
    U32RoundTrip(x, rest);
    assert b[at + 4..] == b[at..][4..];
  }

  /** Every canonical DATA header with any payload parses back to itself. */
  lemma DataRoundTrip(d: DataHeader, payload: Bytes)
    requires CanonicalData(d)
    ensures ParseData(DataHeaderBytes(d) + payload) == Ok((d, payload))
  {
    hide PutU32, GetU32, PutU24, GetU24, HeaderBytes, ParseHeader, FecInfo;
    var b := DataHeaderBytes(d) + payload;
    var info := FecInfo(d.header.flags, d.fecGroup, d.fecIndex) + payload;
    var w4 := PutU32(d.txTs) + info;
    var w3 := PutU32(d.pathSeq) + w4;
    var w2 := PutU32(d.globalSeq) + w3;
    var w1 := PutU32(d.session) + w2;
    assert b == HeaderBytes(d.header) + w1;
    HeaderRoundTrip(d.header, w1);
    assert b[4..] == w1;
    ReadU32(b, 4, d.session, w2);
    ReadU32(b, 8, d.globalSeq, w3);
    ReadU32(b, 12, d.pathSeq, w4);
    ReadU32(b, 16, d.txTs, info);
    FecInfoRoundTrip(d.header.flags, d.fecGroup, d.fecIndex, payload);
    assert HasFecInfo(d.header.flags) ==> b[23] == info[3] && b[24..] == info[4..];
  }

  lemma FecInfoRoundTrip(flags: Byte, group: U32, index: Byte, payload: Bytes)
    requires group < 0x100_0000
    ensures var info := FecInfo(flags, group, index) + payload;
            if HasFecInfo(flags)
            then |info| >= 4 && GetU24(info) == group && info[3] == index && info[4..] == payload
            else info == payload
  {
    U24RoundTrip(group, [index] + payload);
    assert PutU24(group) + [index] + payload == PutU24(group) + ([index] + payload);
  }

  /** Every accepted DATA datagram is canonical and re-encodes to the same bytes. */
  lemma DataUnique(b: Bytes)
    requires ParseData(b).Ok?
    ensures var (d, payload) := ParseData(b).value;
            CanonicalData(d) && DataHeaderBytes(d) + payload == b
  {
    hide PutU32, GetU32, PutU24, GetU24;
    var (d, payload) := ParseData(b).value;
    HeaderUnique(b);
    U32Unique(b[4..]);
    U32Unique(b[8..]);
    U32Unique(b[12..]);
    U32Unique(b[16..]);
    if HasFecInfo(d.header.flags) {
      U24Unique(b[20..]);
      assert PutU24(d.fecGroup) + [d.fecIndex] == b[20..24];
      assert b[..4] + b[4..8] + b[8..12] + b[12..16] + b[16..20] + b[20..24] + b[24..] == b;
    } else {
      assert b[..4] + b[4..8] + b[8..12] + b[12..16] + b[16..20] + [] + b[20..] == b;
    }
  }

  // ----- FEC -----

  datatype FecHeader = FecHeader(header: Header, session: U32, group: U32, index: Byte, k: Byte, m: Byte, shardLen: U16)

  function FecHeaderBytes(f: FecHeader): (b: Bytes)
    ensures |b| == FEC_HEADER_SIZE
  {
    HeaderBytes(f.header.(typ := TYPE_FEC)) + PutU32(f.session) + PutU24(f.group % 0x100_0000)
    + [f.index, f.k, f.m] + PutU16(f.shardLen)
  }

  function ParseFec(b: Bytes): Result<(FecHeader, Bytes)> {
    match ParseHeader(b)
    case Err(e) => Err(e)
    case Ok(h) =>
      if h.typ != TYPE_FEC then Err(BadType)
      else if |b| < FEC_HEADER_SIZE then Err(ShortBuffer)
      else
        var f := FecHeader(h, GetU32(b[4..]), GetU24(b[8..]), b[11], b[12], b[13], GetU16(b[14..]));
        if f.shardLen != |b| - FEC_HEADER_SIZE then Err(ShortBuffer) else Ok((f, b[FEC_HEADER_SIZE..]))
  }

  predicate CanonicalFec(f: FecHeader, shard: Bytes) {
    f.header.typ == TYPE_FEC && f.group < 0x100_0000 && f.shardLen == |shard|
  }

  lemma FecRoundTrip(f: FecHeader, shard: Bytes)
    requires CanonicalFec(f, shard)
    ensures ParseFec(FecHeaderBytes(f) + shard) == Ok((f, shard))
  {
    hide PutU32, GetU32, PutU24, GetU24, PutU16, GetU16;
    var b := FecHeaderBytes(f) + shard;
    var w3 := PutU16(f.shardLen) + shard;
    var w2 := PutU24(f.group) + ([f.index, f.k, f.m] + w3);
    var w1 := PutU32(f.session) + w2;
    assert b == HeaderBytes(f.header) + w1;
    HeaderRoundTrip(f.header, w1);
    assert b[4..] == w1;
    ReadU32(b, 4, f.session, w2);
    U24RoundTrip(f.group, [f.index, f.k, f.m] + w3);
    assert b[11] == b[8..][3] && b[12] == b[8..][4] && b[13] == b[8..][5];
    assert b[14..] == b[8..][6..] == w3;
    U16RoundTrip(f.shardLen, shard);
    assert b[16..] == b[14..][2..] == shard;
  }

  lemma FecUnique(b: Bytes)
    requires ParseFec(b).Ok?
    ensures var (f, shard) := ParseFec(b).value;
            CanonicalFec(f, shard) && FecHeaderBytes(f) + shard == b
  {
    hide PutU32, GetU32, PutU24, GetU24, PutU16, GetU16;
    var (f, shard) := ParseFec(b).value;
    HeaderUnique(b);
    U32Unique(b[4..]);
    U24Unique(b[8..]);
    U16Unique(b[14..]);
    assert [f.index, f.k, f.m] == b[11..14];
    assert b[..4] + b[4..8] + b[8..11] + b[11..14] + b[14..16] + b[16..] == b;
  }

  // ----- Layout -----

  /** Where each field of a DATA header is; bit 1 of the flags says whether the FEC fields are there. */
  lemma DataLayout(d: DataHeader)
    requires d.header.typ == TYPE_DATA
    ensures var b := DataHeaderBytes(d);
            && |b| == (if d.header.flags / 2 % 2 == 1 then 24 else 20)
            && b[0] == 0x10 && b[1] == d.header.flags && b[2] == d.header.pathId && b[3] == d.header.epoch
            && Number(b[4..8]) == d.session && Number(b[8..12]) == d.globalSeq
            && Number(b[12..16]) == d.pathSeq && Number(b[16..20]) == d.txTs
            && (|b| == 24 ==> Number(b[20..23]) == d.fecGroup % 0x100_0000 && b[23] == d.fecIndex)
  {
    hide PutU32, PutU24, Number;
    var b := DataHeaderBytes(d);
    assert b[4..8] == PutU32(d.session) && b[8..12] == PutU32(d.globalSeq);
    assert b[12..16] == PutU32(d.pathSeq) && b[16..20] == PutU32(d.txTs);
    U32Number(d.session);
    U32Number(d.globalSeq);
    U32Number(d.pathSeq);
    U32Number(d.txTs);
    if |b| == 24 {
      assert b[20..23] == PutU24(d.fecGroup % 0x100_0000);
      U24Number(d.fecGroup % 0x100_0000);
    }
  }

  /** Where each field of an FEC header is. */
  lemma FecLayout(f: FecHeader)
    ensures var b := FecHeaderBytes(f);
            && |b| == 16
            && b[0] == 0x14 && b[1] == f.header.flags && b[2] == f.header.pathId && b[3] == f.header.epoch
            && Number(b[4..8]) == f.session && Number(b[8..11]) == f.group % 0x100_0000
            && b[11] == f.index && b[12] == f.k && b[13] == f.m && Number(b[14..16]) == f.shardLen
  {
    hide PutU32, PutU24, PutU16, Number;
    var b := FecHeaderBytes(f);
    assert b[4..8] == PutU32(f.session) && b[8..11] == PutU24(f.group % 0x100_0000) && b[14..16] == PutU16(f.shardLen);
    U32Number(f.session);
    U24Number(f.group % 0x100_0000);
    U16Number(f.shardLen);
  }

  // ----- Writing into buffers -----

  method PutBytes(b: array<Byte>, at: nat, s: Bytes)
    requires at + |s| <= b.Length
    modifies b
    ensures b[..at + |s|] == old(b[..at]) + s
    ensures forall j :: at + |s| <= j < b.Length ==> b[j] == old(b[j])
  {
    for i := 0 to |s|
      invariant forall j :: 0 <= j < b.Length ==> b[j] == if at <= j < at + i then s[j - at] else old(b[j])
    {
      b[at + i] := s[i];
    }
    assert b[..at] == old(b[..at]) && b[at..at + |s|] == s;
    assert b[..at + |s|] == b[..at] + b[at..at + |s|];
  }

  method PutDataHeader(b: array<Byte>, d: DataHeader) returns (n: nat)
    requires b.Length >= DataLen(d.header.flags)
    modifies b
    ensures n == DataLen(d.header.flags)
    ensures b[..n] == DataHeaderBytes(d) && b[n..] == old(b[n..])
  {
    hide PutU32, PutU24, HeaderBytes;
    n := DataLen(d.header.flags);
    ghost var h := HeaderBytes(d.header);
    PutBytes(b, 0, HeaderBytes(d.header));
    assert b[..4] == h;
    PutBytes(b, 4, PutU32(d.session));
    PutBytes(b, 8, PutU32(d.globalSeq));
    PutBytes(b, 12, PutU32(d.pathSeq));
    PutBytes(b, 16, PutU32(d.txTs));
    if HasFecInfo(d.header.flags) {
      PutBytes(b, 20, FecInfo(d.header.flags, d.fecGroup, d.fecIndex));
    }
    assert forall j :: n <= j < b.Length ==> b[j] == old(b[j]);
  }

  method PutFecHeader(b: array<Byte>, f: FecHeader) returns (n: nat)
    requires b.Length >= FEC_HEADER_SIZE
    modifies b
    ensures n == FEC_HEADER_SIZE
    ensures b[..n] == FecHeaderBytes(f) && b[n..] == old(b[n..])
  {
    hide PutU32, PutU24, PutU16, HeaderBytes;
    n := FEC_HEADER_SIZE;
    ghost var h := HeaderBytes(f.header.(typ := TYPE_FEC));
    PutBytes(b, 0, HeaderBytes(f.header.(typ := TYPE_FEC)));
    assert b[..4] == h;
    PutBytes(b, 4, PutU32(f.session));
    PutBytes(b, 8, PutU24(f.group % 0x100_0000));
    PutBytes(b, 11, [f.index, f.k, f.m]);
    PutBytes(b, 14, PutU16(f.shardLen));
    assert forall j :: n <= j < b.Length ==> b[j] == old(b[j]);
  }
}
