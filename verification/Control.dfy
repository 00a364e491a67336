/** The CTRL feedback datagram: authenticated, with type-length-value records. */
module Control {
  import opened Words
  import opened BigEndian
  import opened Wire

  const TLV_PATH_STATS: Byte := 1
  const PATH_STATS_SIZE := 25
  const MAX_CTRL_PATHS := 40
  const MAC_SIZE := 16

  datatype PathStats = PathStats(pathId: Byte, highest: U32, rxPkts: U32, rxBytes: U64, owdMin: U32, owdAvg: U32)

  datatype Ctrl = Ctrl(session: U32, paths: seq<PathStats>)

  /** The keyed hash; only its length matters here. */
  type Mac = Bytes -> Bytes

  ghost predicate Tags(mac: Mac) {
    forall msg: Bytes :: |mac(msg)| == MAC_SIZE
  }

  function Sign(mac: Mac, msg: Bytes): Bytes {
    msg + mac(msg)
  }

  function Verify(mac: Mac, b: Bytes): Option<Bytes> {
    if |b| < MAC_SIZE then None
    else
      var msg := b[..|b| - MAC_SIZE];
      if b[|b| - MAC_SIZE..] == mac(msg) then Some(msg) else None
  }

  lemma SignedVerifies(mac: Mac, msg: Bytes)
    requires Tags(mac)
    ensures Verify(mac, Sign(mac, msg)) == Some(msg)
  {
    var b := Sign(mac, msg);
    assert b[..|b| - MAC_SIZE] == msg && b[|b| - MAC_SIZE..] == mac(msg);
  }

  // ----- Records -----

  function StatsBody(ps: PathStats): (b: Bytes)
    ensures |b| == PATH_STATS_SIZE
  {
    [ps.pathId] + PutU32(ps.highest) + PutU32(ps.rxPkts) + PutU64(ps.rxBytes) + PutU32(ps.owdMin) + PutU32(ps.owdAvg)
  }

  function StatsOf(body: Bytes): PathStats
    requires |body| == PATH_STATS_SIZE
  {
    PathStats(body[0], GetU32(body[1..]), GetU32(body[5..]), GetU64(body[9..]), GetU32(body[17..]), GetU32(body[21..]))
  }

  lemma StatsRoundTrip(ps: PathStats)
    ensures StatsOf(StatsBody(ps)) == ps
  {
    hide PutU32, GetU32, PutU64, GetU64;
    var b := StatsBody(ps);
    var w5 := PutU32(ps.owdAvg) + [];
    var w4 := PutU32(ps.owdMin) + w5;
    var w3 := PutU64(ps.rxBytes) + w4;
    var w2 := PutU32(ps.rxPkts) + w3;
    var w1 := PutU32(ps.highest) + w2;
    assert b == [ps.pathId] + w1;
    assert b[1..] == w1;
    ReadU32(b, 1, ps.highest, w2);
    ReadU32(b, 5, ps.rxPkts, w3);
    U64RoundTrip(ps.rxBytes, w4);
    assert b[17..] == b[9..][8..] == w4;
    ReadU32(b, 17, ps.owdMin, w5);
    ReadU32(b, 21, ps.owdAvg, []);
  }

  /** A record: its type and its body of at most 255 bytes. */
  datatype Record = Record(typ: Byte, body: Bytes)

  predicate Sized(r: Record) {
    |r.body| <= 255
  }

  function RecordBytes(r: Record): (b: Bytes)
    requires Sized(r)
    ensures |b| == 2 + |r.body|
  {
    [r.typ, |r.body|] + r.body
  }

  ghost predicate AllSized(rs: seq<Record>) {
    forall i :: 0 <= i < |rs| ==> Sized(rs[i])
  }

  function Joined(rs: seq<Record>): Bytes
    requires AllSized(rs)
  {
    if rs == [] then [] else RecordBytes(rs[0]) + Joined(rs[1..])
  }

  predicate IsStats(r: Record) {
    r.typ == TLV_PATH_STATS && |r.body| == PATH_STATS_SIZE
  }

  /** The path statistics among the records, in order. */
  function StatsIn(rs: seq<Record>): seq<PathStats> {
    if rs == [] then []
    else (if IsStats(rs[0]) then [StatsOf(rs[0].body)] else []) + StatsIn(rs[1..])
  }

  /** The records of a message, or nothing when the last one is cut off. */
  function Split(b: Bytes): Option<seq<Record>> {
    if |b| < 2 then Some([])
    else if |b| < 2 + b[1] as int then None
    else
      var l := b[1] as int;
      match Split(b[2 + l..])
      case None => None
      case Some(rs) => Some([Record(b[0], b[2..2 + l])] + rs)
  }

  // Splitting undoes joining; a single stray byte at the end is ignored.
  lemma {:induction false} SplitJoined(rs: seq<Record>, tail: Bytes)
    requires AllSized(rs) && |tail| <= 1
    ensures Split(Joined(rs) + tail) == Some(rs)
  {
    var b := Joined(rs) + tail;
    if rs == [] {
      assert b == tail;
    } else {
      var r := rs[0];
      var rest := Joined(rs[1..]) + tail;
      assert b == RecordBytes(r) + rest;
      assert b[2..2 + |r.body|] == r.body && b[2 + |r.body|..] == rest;
      SplitJoined(rs[1..], tail);
      assert [r] + rs[1..] == rs;
    }
  }

  lemma JoinedFirst(r: Record, rs: seq<Record>)
    requires Sized(r) && AllSized(rs)
    ensures AllSized([r] + rs) && Joined([r] + rs) == RecordBytes(r) + Joined(rs)
  {
    assert ([r] + rs)[1..] == rs;
  }

  // Only joined records, with at most one stray byte, can be split.
  lemma {:induction false} SplitOnlyJoined(b: Bytes)
    requires Split(b).Some?
    ensures AllSized(Split(b).value)
    ensures Joined(Split(b).value) <= b && |b| - |Joined(Split(b).value)| <= 1
  {
    if |b| >= 2 {
      var l := b[1] as int;
      var rest := b[2 + l..];
      SplitOnlyJoined(rest);
      var r := Record(b[0], b[2..2 + l]);
      assert b == RecordBytes(r) + rest;
      JoinedFirst(r, Split(rest).value);
    }
  }

  // ----- The datagram -----

  function Preamble(h: Header, session: U32): (b: Bytes)
    ensures |b| == 8
  {
    HeaderBytes(h.(typ := TYPE_CTRL)) + PutU32(session)
  }

  function FirstPaths(paths: seq<PathStats>): seq<PathStats> {
    if |paths| > MAX_CTRL_PATHS then paths[..MAX_CTRL_PATHS] else paths
  }

  function StatsRecords(paths: seq<PathStats>): (rs: seq<Record>)
    ensures AllSized(rs) && |rs| == |paths|
  {
    if paths == [] then [] else [Record(TLV_PATH_STATS, StatsBody(paths[0]))] + StatsRecords(paths[1..])
  }

  function EncodeBytes(h: Header, c: Ctrl, mac: Mac): Bytes {
    Sign(mac, Preamble(h, c.session) + Joined(StatsRecords(FirstPaths(c.paths))))
  }

  function ParseBytes(b: Bytes, mac: Mac): Option<(Header, Ctrl)> {
    match Verify(mac, b)
    case None => None
    case Some(msg) =>
      if |msg| < 8 then None
      else match ParseHeader(msg)
        case Err(_) => None
        case Ok(h) =>
          if h.typ != TYPE_CTRL then None
          else match Split(msg[8..])
            case None => None
            case Some(rs) => Some((h, Ctrl(GetU32(msg[4..]), StatsIn(rs))))
  }

  /** A message of sized records, with at most one stray byte behind them. */
  ghost predicate WellFormedMessage(msg: Bytes, h: Header, session: U32, rs: seq<Record>, tail: Bytes) {
    AllSized(rs) && |tail| <= 1 && h.typ == TYPE_CTRL && msg == Preamble(h, session) + Joined(rs) + tail
  }

  // A signed message is accepted.
  lemma MessageAccepted(msg: Bytes, h: Header, session: U32, rs: seq<Record>, tail: Bytes, mac: Mac)
    requires Tags(mac) && WellFormedMessage(msg, h, session, rs, tail)
    ensures ParseBytes(msg + mac(msg), mac) == Some((h, Ctrl(session, StatsIn(rs))))
  {
    hide PutU32, GetU32, HeaderBytes, ParseHeader, Split, Joined;
    var body := Joined(rs) + tail;
    SignedVerifies(mac, msg);
    assert msg == HeaderBytes(h) + (PutU32(session) + body);
    HeaderRoundTrip(h, PutU32(session) + body);
    assert msg[4..] == PutU32(session) + body;
    ReadU32(msg, 4, session, body);
    SplitJoined(rs, tail);
  }

  /**
   What the parser accepts, exactly: a message of whole records with at most one stray
   byte, followed by its own tag. It returns the header, the session and the path
   statistics of the records. Nothing with another tag is accepted.
   */
  lemma AcceptedExactly(b: Bytes, mac: Mac, h: Header, c: Ctrl)
    requires Tags(mac)
    ensures ParseBytes(b, mac) == Some((h, c)) <==>
            exists msg, rs, tail ::
              WellFormedMessage(msg, h, c.session, rs, tail) && b == msg + mac(msg) && c.paths == StatsIn(rs)
  {
    hide WellFormedMessage, ParseBytes, StatsIn;
    if ParseBytes(b, mac) == Some((h, c)) {
      var msg, rs, tail := Accepted(b, mac, h, c);
    }
    if msg, rs, tail :| WellFormedMessage(msg, h, c.session, rs, tail) && b == msg + mac(msg) && c.paths == StatsIn(rs) {
      MessageAccepted(msg, h, c.session, rs, tail, mac);
    }
  }

  lemma Accepted(b: Bytes, mac: Mac, h: Header, c: Ctrl) returns (msg: Bytes, rs: seq<Record>, tail: Bytes)
    requires ParseBytes(b, mac) == Some((h, c))
    ensures WellFormedMessage(msg, h, c.session, rs, tail) && b == msg + mac(msg) && c.paths == StatsIn(rs)
  {
    hide HeaderBytes, ParseHeader, PutU32, GetU32, StatsIn, Split, Joined;
    msg := Verify(mac, b).value;
    assert b == msg + mac(msg);
    HeaderUnique(msg);
    U32Unique(msg[4..]);
    rs := Split(msg[8..]).value;
    SplitOnlyJoined(msg[8..]);
    tail := msg[8..][|Joined(rs)|..];
    assert h.(typ := TYPE_CTRL) == h;
    assert msg == msg[..4] + msg[4..8] + msg[8..];
    assert msg[4..][..4] == msg[4..8];
  }

  /**
   Forward compatibility: whatever records of unknown type or size are mixed in,
   the parser returns the header, the session and exactly the known records.
   */
  lemma ForwardCompatible(h: Header, session: U32, rs: seq<Record>, mac: Mac)
    requires Tags(mac) && AllSized(rs)
    ensures ParseBytes(Sign(mac, Preamble(h, session) + Joined(rs)), mac)
            == Some((h.(typ := TYPE_CTRL), Ctrl(session, StatsIn(rs))))
  {
    hide PutU32, HeaderBytes, ParseBytes, Joined;
    var msg := Preamble(h, session) + Joined(rs);
    assert msg == msg + [];
    MessageAccepted(msg, h.(typ := TYPE_CTRL), session, rs, [], mac);
  }

  lemma {:induction false} StatsOfRecords(paths: seq<PathStats>)
    ensures StatsIn(StatsRecords(paths)) == paths
  {
    if paths != [] {
      StatsOfRecords(paths[1..]);
      StatsRoundTrip(paths[0]);
      assert StatsRecords(paths)[1..] == StatsRecords(paths[1..]);
      assert [paths[0]] + paths[1..] == paths;
    }
  }

  /** Parsing an encoded report returns the session and its paths, of more than 40 the first 40. */
  lemma CtrlRoundTrip(h: Header, c: Ctrl, mac: Mac)
    requires Tags(mac)
    ensures ParseBytes(EncodeBytes(h, c, mac), mac)
            == Some((h.(typ := TYPE_CTRL), Ctrl(c.session, if |c.paths| <= 40 then c.paths else c.paths[..40])))
  {
    ForwardCompatible(h, c.session, StatsRecords(FirstPaths(c.paths)), mac);
    StatsOfRecords(FirstPaths(c.paths));
  }

  /** Inserting an unknown record anywhere leaves the parsed paths the same. */
  lemma {:induction false} UnknownRecordIgnored(a: seq<Record>, r: Record, b: seq<Record>)
    requires !IsStats(r)
    ensures StatsIn(a + [r] + b) == StatsIn(a + b)
  {
    if a == [] {
      assert a + [r] + b == [r] + b && a + b == b;
      assert ([r] + b)[1..] == b;
    } else {
      UnknownRecordIgnored(a[1..], r, b);
      assert (a + [r] + b)[1..] == a[1..] + [r] + b && (a + b)[1..] == a[1..] + b;
    }
  }

  /** The layout of a record on the wire: type 1, length 25, and where each field is. */
  lemma RecordLayout(ps: PathStats)
    ensures var b := Joined(StatsRecords([ps]));
            && |b| == 27 && b[0] == 1 && b[1] == 25 && b[2] == ps.pathId
            && Number(b[3..7]) == ps.highest && Number(b[7..11]) == ps.rxPkts && Number(b[11..19]) == ps.rxBytes
            && Number(b[19..23]) == ps.owdMin && Number(b[23..27]) == ps.owdAvg
  {
    hide PutU32, PutU64, Number;
    var r := Record(TLV_PATH_STATS, StatsBody(ps));
    OneRecord(ps);
    var b := RecordBytes(r);
    assert b[3..7] == PutU32(ps.highest) && b[7..11] == PutU32(ps.rxPkts) && b[11..19] == PutU64(ps.rxBytes);
    assert b[19..23] == PutU32(ps.owdMin) && b[23..27] == PutU32(ps.owdAvg);
    U32Number(ps.highest);
    U32Number(ps.rxPkts);
    U64Number(ps.rxBytes);
    U32Number(ps.owdMin);
    U32Number(ps.owdAvg);
  }

  lemma OneRecord(ps: PathStats)
    ensures Joined(StatsRecords([ps])) == RecordBytes(Record(TLV_PATH_STATS, StatsBody(ps)))
  {
    hide StatsBody;
    assert [ps][1..] == [];
    JoinedFirst(Record(TLV_PATH_STATS, StatsBody(ps)), []);
  }

  // ----- The loops of the source -----

  lemma {:induction false} JoinedAppend(rs: seq<Record>, r: Record)
    requires AllSized(rs) && Sized(r)
    ensures Joined(rs + [r]) == Joined(rs) + RecordBytes(r)
  {
    if rs == [] {
      assert rs + [r] == [r];
    } else {
      assert (rs + [r])[1..] == rs[1..] + [r];
      JoinedAppend(rs[1..], r);
    }
  }

  lemma {:induction false} StatsRecordsAppend(paths: seq<PathStats>, ps: PathStats)
    ensures StatsRecords(paths + [ps]) == StatsRecords(paths) + [Record(TLV_PATH_STATS, StatsBody(ps))]
  {
    if paths == [] {
      assert paths + [ps] == [ps];
    } else {
      assert (paths + [ps])[1..] == paths[1..] + [ps];
      StatsRecordsAppend(paths[1..], ps);
    }
  }

  lemma NothingJoined()
    ensures Joined(StatsRecords([])) == []
  {
  }

  method EncodeCtrl(h: Header, c: Ctrl, mac: Mac) returns (b: Bytes)
    ensures b == EncodeBytes(h, c, mac)
  {
    hide Preamble, Joined, StatsRecords;
    var n := |c.paths|;
    if n > MAX_CTRL_PATHS {
      n := MAX_CTRL_PATHS;
    }
    assert c.paths[..n] == FirstPaths(c.paths);
    var records := AppendRecords(c.paths[..n]);
    b := Sign(mac, Preamble(h, c.session) + records);
  }

  method AppendRecords(paths: seq<PathStats>) returns (buf: Bytes)
    ensures buf == Joined(StatsRecords(paths))
  {
    hide StatsBody, Joined, StatsRecords;
    buf := [];
    NothingJoined();
    for i := 0 to |paths|
      invariant buf == Joined(StatsRecords(paths[..i]))
    {
      var rec := Record(TLV_PATH_STATS, StatsBody(paths[i]));
      StatsRecordsAppend(paths[..i], paths[i]);
      JoinedAppend(StatsRecords(paths[..i]), rec);
      assert paths[..i + 1] == paths[..i] + [paths[i]];
      buf := buf + RecordBytes(rec);
    }
    assert paths[..|paths|] == paths;
  }

  function StatsFrom(b: Bytes): Option<seq<PathStats>> {
    match Split(b)
    case None => None
    case Some(rs) => Some(StatsIn(rs))
  }

  function Prepend(a: seq<PathStats>, o: Option<seq<PathStats>>): Option<seq<PathStats>> {
    match o
    case None => None
    case Some(b) => Some(a + b)
  }

  lemma PrependTwice(a: seq<PathStats>, b: seq<PathStats>, o: Option<seq<PathStats>>)
    ensures Prepend(a, Prepend(b, o)) == Prepend(a + b, o)
    ensures Prepend([], o) == o
  {
    if o.Some? {
      assert a + (b + o.value) == a + b + o.value;
      assert [] + o.value == o.value;
    }
  }

  // Reading one record off the front.
  lemma StatsFromStep(b: Bytes)
    requires |b| >= 2 && |b| >= 2 + b[1] as int
    ensures var l := b[1] as int;
            var here := if b[0] == TLV_PATH_STATS && l == PATH_STATS_SIZE then [StatsOf(b[2..2 + l])] else [];
            StatsFrom(b) == Prepend(here, StatsFrom(b[2 + l..]))
  {
    var l := b[1] as int;
    var rest := Split(b[2 + l..]);
    if rest.Some? {
      var r := Record(b[0], b[2..2 + l]);
      assert ([r] + rest.value)[1..] == rest.value;
    }
  }

  method ReadRecords(msg: Bytes) returns (r: Option<seq<PathStats>>)
    ensures r == StatsFrom(msg)
  {
    hide StatsOf, StatsFrom, Prepend;
    var paths: seq<PathStats> := [];
    var rest := msg;
    PrependTwice([], [], StatsFrom(msg));
    while |rest| >= 2
      invariant StatsFrom(msg) == Prepend(paths, StatsFrom(rest))
      decreases |rest|
    {
      var typ, l := rest[0], rest[1] as int;
      if |rest| < 2 + l {
        CutOff(rest);
        NothingAfter(paths, rest);
        return None;
      }
      StatsFromStep(rest);
      var body := rest[2..2 + l];
      ghost var here := if typ == TLV_PATH_STATS && l == PATH_STATS_SIZE then [StatsOf(body)] else [];
      PrependTwice(paths, here, StatsFrom(rest[2 + l..]));
      rest := rest[2 + l..];
      if typ == TLV_PATH_STATS && l == PATH_STATS_SIZE {
        paths := paths + [StatsOf(body)];
      } else {
        assert paths + here == paths;
      }
    }
    NothingAfter(paths, rest);
    r := Some(paths);
  }

  lemma NothingAfter(paths: seq<PathStats>, rest: Bytes)
    ensures |rest| < 2 ==> Prepend(paths, StatsFrom(rest)) == Some(paths)
    ensures StatsFrom(rest) == None ==> Prepend(paths, StatsFrom(rest)) == None
  {
    if |rest| < 2 {
      assert StatsIn([]) == [] && paths + [] == paths;
    }
  }

  lemma CutOff(b: Bytes)
    requires |b| >= 2 && |b| < 2 + b[1] as int
    ensures StatsFrom(b) == None
  {
  }

  method ParseCtrl(b: Bytes, mac: Mac) returns (r: Option<(Header, Ctrl)>)
    ensures r == ParseBytes(b, mac)
  {
    hide Verify, ParseHeader, GetU32, Split, StatsIn;
    var v := Verify(mac, b);
    if v.None? || |v.value| < 8 {
      return None;
    }
    var msg := v.value;
    var h := ParseHeader(msg);
    if h.Err? || h.value.typ != TYPE_CTRL {
      return None;
    }
    var paths := ReadRecords(msg[8..]);
    if paths.None? {
      return None;
    }
    r := Some((h.value, Ctrl(GetU32(msg[4..]), paths.value)));
  }
}
