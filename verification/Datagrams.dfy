/**
 The datapath in bytes: what the sender writes for a bulk packet or a parity shard
 is read back by the receiving engine as exactly that packet or shard.
 */
module Datagrams {
  import opened Words
  import opened BigEndian
  import opened Wire
  import opened FecShards
  import opened FecEncoder
  import F = FecRepair
  import E = EndToEnd

  /** The fields of a datagram that depend on the path it takes. */
  datatype Path = Path(id: Byte, pathSeq: U32, txTs: U32)

  /** The header `sendDataOn` writes. */
  function FrameHeader(session: U32, path: Path, cls: Byte, dup: bool, p: Packet, tag: Option<Tag>): DataHeader {
    DataHeader(Header(TYPE_DATA, DataFlags(cls, tag.Some?, dup), path.id, 0), session, p.seqNo, path.pathSeq, path.txTs,
               if tag.Some? then tag.value.group else 0, if tag.Some? then tag.value.index else 0)
  }

  /** The frame for a slab, or nothing when it does not fit. */
  function SendData(session: U32, path: Path, cls: Byte, dup: bool, p: Packet, tag: Option<Tag>): Option<Bytes> {
    var h := FrameHeader(session, path, cls, dup, p, tag);
    if DataLen(h.header.flags) + |p.ct| > E.SLAB_SIZE then None else Some(DataHeaderBytes(h) + p.ct)
  }

  function SendBulk(session: U32, path: Path, p: Packet, tag: Option<Tag>): Option<Bytes> {
    SendData(session, path, CLASS_BULK, false, p, tag)
  }

  function SendParity(session: U32, path: Path, x: ParityShard): Option<Bytes> {
    var f := FecHeader(Header(TYPE_FEC, 0, path.id, 0), session, x.group, x.index, x.k, x.m, |x.shard| % 0x1_0000);
    if FEC_HEADER_SIZE + |x.shard| > E.SLAB_SIZE then None else Some(FecHeaderBytes(f) + x.shard)
  }

  /** What the receiving engine makes of a datagram of its session. */
  datatype Incoming =
    | Bulk(p: Packet, tag: Option<Tag>)
    | ParityIn(x: ParityShard)
    | Direct(ct: Bytes)
    | Other

  function IncomingData(session: U32, d: DataHeader, payload: Bytes): Incoming {
    if d.session != session then Other
    else if Class(d.header.flags) != CLASS_BULK then Direct(payload)
    else Bulk(Packet(d.globalSeq, payload),
              if HasFecInfo(d.header.flags) then Some(Tag(d.fecGroup, d.fecIndex)) else None)
  }

  function IncomingFec(session: U32, f: FecHeader, shard: Bytes): Incoming {
    if f.session != session then Other else ParityIn(ParityShard(f.group, f.index, f.k, f.m, shard))
  }

  function Receive(session: U32, b: Bytes): Incoming {
    var h, data, fec := ParseHeader(b), ParseData(b), ParseFec(b);
    if h.Ok? && h.value.typ == TYPE_DATA && data.Ok? then IncomingData(session, data.value.0, data.value.1)
    else if h.Ok? && h.value.typ == TYPE_FEC && fec.Ok? then IncomingFec(session, fec.value.0, fec.value.1)
    else Other
  }

  /**
   What fits a slab arrives as itself: packets of class 0 as bulk with their stamp,
   packets of the other classes as ciphertext to be handed up directly.
   */
  lemma DataArrives(session: U32, path: Path, cls: Byte, dup: bool, p: Packet, tag: Option<Tag>)
    requires cls < 4 && (tag.Some? ==> tag.value.group < GROUP_IDS)
    ensures match SendData(session, path, cls, dup, p, tag)
            case Some(b) => |b| <= 2048 && Receive(session, b) == if cls == 0 then Bulk(p, tag) else Direct(p.ct)
            case None => |p.ct| + (if tag.Some? then 24 else 20) > 2048
  {
    hide DataHeaderBytes, ParseData, ParseHeader, ParseFec, DataFlags, Class;
    var h := FrameHeader(session, path, cls, dup, p, tag);
    FlagsRoundTrip(cls, tag.Some?, dup);
    if DataLen(h.header.flags) + |p.ct| <= E.SLAB_SIZE {
      DataRoundTrip(h, p.ct);
      HeaderOfData(h, p.ct);
    }
  }

  /** The receiver also reads back path, path number, time stamp and duplicate mark. */
  lemma FrameFields(session: U32, path: Path, cls: Byte, dup: bool, p: Packet, tag: Option<Tag>)
    requires tag.Some? ==> tag.value.group < GROUP_IDS
    requires SendData(session, path, cls, dup, p, tag).Some?
    ensures var r := ParseData(SendData(session, path, cls, dup, p, tag).value);
            && r.Ok? && r.value.1 == p.ct
            && var d := r.value.0;
               && d.session == session && d.globalSeq == p.seqNo && d.header.pathId == path.id
               && d.pathSeq == path.pathSeq && d.txTs == path.txTs
               && (d.header.flags % 2 == 1 <==> dup) && d.header.flags / 4 % 4 == cls % 4
  {
    hide DataHeaderBytes, ParseData;
    FlagsRoundTrip(cls, tag.Some?, dup);
    DataRoundTrip(FrameHeader(session, path, cls, dup, p, tag), p.ct);
  }

  /** A bulk packet that fits arrives as itself, with its stamp. */
  lemma BulkArrives(session: U32, path: Path, p: Packet, tag: Option<Tag>)
    requires tag.Some? ==> tag.value.group < GROUP_IDS
    ensures match SendBulk(session, path, p, tag)
            case Some(b) => |b| <= 2048 && Receive(session, b) == Bulk(p, tag)
            case None => |p.ct| + (if tag.Some? then 24 else 20) > 2048
  {
    hide SendData, Receive;
    DataArrives(session, path, CLASS_BULK, false, p, tag);
  }

  lemma HeaderOfData(h: DataHeader, payload: Bytes)
    requires CanonicalData(h)
    ensures ParseHeader(DataHeaderBytes(h) + payload) == Ok(h.header)
  {
    hide PutU32, FecInfo, HeaderBytes, ParseHeader;
    var b := DataHeaderBytes(h) + payload;
    var rest := b[4..];
    assert b == HeaderBytes(h.header) + rest;
    HeaderRoundTrip(h.header, rest);
  }

  /** A parity shard that fits arrives as itself. */
  lemma ParityArrives(session: U32, path: Path, x: ParityShard)
    requires x.group < GROUP_IDS
    ensures match SendParity(session, path, x)
            case Some(b) => |b| <= 2048 && Receive(session, b) == ParityIn(x)
            case None => |x.shard| + 16 > 2048
  {
    hide FecHeaderBytes, ParseFec, ParseHeader;
    if FEC_HEADER_SIZE + |x.shard| <= E.SLAB_SIZE {
      var f := FecHeader(Header(TYPE_FEC, 0, path.id, 0), session, x.group, x.index, x.k, x.m, |x.shard|);
      FecRoundTrip(f, x.shard);
      HeaderOfFec(f, x.shard);
    }
  }

  lemma HeaderOfFec(f: FecHeader, shard: Bytes)
    requires f.header.typ == TYPE_FEC
    ensures ParseHeader(FecHeaderBytes(f) + shard) == Ok(f.header)
  {
    hide PutU32, PutU24, PutU16, HeaderBytes, ParseHeader;
    var b := FecHeaderBytes(f) + shard;
    var rest := b[4..];
    assert b == HeaderBytes(f.header) + rest;
    HeaderRoundTrip(f.header, rest);
  }

  /** The decoder operation for an incoming datagram. */
  function DecoderInput(i: Incoming, now: int, victim: Option<int>): Option<F.DecOp> {
    match i
    case Bulk(p, Some(t)) => Some(F.DataIn(t.group, t.index, p, now, victim))
    case Bulk(_, None) => None
    case ParityIn(x) => Some(F.ParityIn(x.group, x.index, x.k, x.m, x.shard, now, victim))
    case Direct(_) => None
    case Other => None
  }

  /**
   The byte-level datapath is the one of the end-to-end model: a datagram that
   was written and gets through feeds the decoder exactly what the model says.
   */
  lemma BytesRefineModel(c: Codec, s: E.Sys, op: E.Op, session: U32, path: Path)
    requires E.LawfulCode(c) && E.SysInv(c, s) && E.Allowed(s, op) && (op.DataOp? || op.ParityOp?)
    ensures var sent := if op.DataOp? then SendBulk(session, path, E.PacketOf(s, op.n), s.tags[op.n - 1])
                        else SendParity(session, path, s.enc.emitted[op.j]);
            sent.Some? && DecoderInput(Receive(session, sent.value), op.now, op.victim) == E.Decoding(s, op)
  {
    hide Receive, SendBulk, SendParity, Lawful, E.BufferOk, E.DecoderOk;
    if op.DataOp? {
      var tag := s.tags[op.n - 1];
      if tag.Some? {
        E.DataOrigin(c, s, op.n - 1);
        E.ClosedCount(c, s);
      }
      BulkArrives(session, path, E.PacketOf(s, op.n), tag);
    } else {
      E.ParityOrigin(c, s, s.enc.emitted[op.j]);
      E.ClosedCount(c, s);
      ParityArrives(session, path, s.enc.emitted[op.j]);
    }
  }
}
