/** Big-endian integer encodings, as in Go's `encoding/binary`. */
module BigEndian {
  import opened Words

  function PutU16(x: U16): (b: Bytes)
    ensures |b| == 2
  {
    [x / 0x100, x % 0x100]
  }

  function GetU16(b: Bytes): U16
    requires |b| >= 2
  {
    b[0] as int * 0x100 + b[1] as int
  }

  function PutU24(x: int): (b: Bytes)
    requires 0 <= x < 0x100_0000
    ensures |b| == 3
  {
    PutU16(x / 0x100) + [x % 0x100]
  }

  function GetU24(b: Bytes): (x: int)
    requires |b| >= 3
    ensures 0 <= x < 0x100_0000
  {
    GetU16(b) * 0x100 + b[2] as int
  }

  function PutU32(x: U32): (b: Bytes)
    ensures |b| == 4
  {
    PutU16(x / 0x1_0000) + PutU16(x % 0x1_0000)
  }

  function GetU32(b: Bytes): U32
    requires |b| >= 4
  {
    GetU16(b) * 0x1_0000 + GetU16(b[2..])
  }

  function PutU64(x: U64): (b: Bytes)
    ensures |b| == 8
  {
    PutU32(x / 0x1_0000_0000) + PutU32(x % 0x1_0000_0000)
  }

  function GetU64(b: Bytes): U64
    requires |b| >= 8
  {
    GetU32(b) * 0x1_0000_0000 + GetU32(b[4..])
  }

  /** The number a string of bytes stands for, most significant byte first. */
  function Number(b: Bytes): int {
    if b == [] then 0 else 256 * Number(b[..|b| - 1]) + b[|b| - 1]
  }

  lemma NumberTwo(x: Byte, y: Byte)
    ensures Number([x, y]) == 256 * x + y
  {
    assert [x, y][..1] == [x] && [x][..0] == [];
    assert Number([x]) == x;
  }

  lemma NumberAppend(b: Bytes, x: Byte)
    ensures Number(b + [x]) == 256 * Number(b) + x
  {
    assert (b + [x])[..|b|] == b;
  }

  lemma NumberAppendTwo(b: Bytes, x: Byte, y: Byte)
    ensures Number(b + [x, y]) == 65536 * Number(b) + 256 * x + y
  {
    NumberAppend(b, x);
    NumberAppend(b + [x], y);
    assert b + [x] + [y] == b + [x, y];
  }

  /** Each encoding writes the number itself, most significant byte first. */
  lemma U16Number(x: U16)
    ensures Number(PutU16(x)) == x
  {
    NumberTwo(x / 0x100, x % 0x100);
  }

  lemma U24Number(x: int)
    requires 0 <= x < 0x100_0000
    ensures Number(PutU24(x)) == x
  {
    U16Number(x / 0x100);
    NumberAppend(PutU16(x / 0x100), x % 0x100);
  }

  lemma U32Number(x: U32)
    ensures Number(PutU32(x)) == x
  {
    var hi, lo := x / 0x1_0000, x % 0x1_0000;
    U16Number(hi);
    NumberAppendTwo(PutU16(hi), lo / 0x100, lo % 0x100);
  }

  lemma U64Number(x: U64)
    ensures Number(PutU64(x)) == x
  {
    var hi, lo := x / 0x1_0000_0000, x % 0x1_0000_0000;
    var a, b := lo / 0x1_0000, lo % 0x1_0000;
    var h := PutU32(hi);
    U32Number(hi);
    NumberAppendTwo(h, a / 0x100, a % 0x100);
    NumberAppendTwo(h + PutU16(a), b / 0x100, b % 0x100);
    assert PutU64(x) == h + PutU16(a) + PutU16(b);
  }

  // Each encoding is a bijection between words and byte strings of its width.

  lemma U16RoundTrip(x: U16, rest: Bytes)
    ensures GetU16(PutU16(x) + rest) == x
  {
  }

  lemma U16Unique(b: Bytes)
    requires |b| >= 2
    ensures PutU16(GetU16(b)) == b[..2]
  {
  }

  lemma U24RoundTrip(x: int, rest: Bytes)
    requires 0 <= x < 0x100_0000
    ensures GetU24(PutU24(x) + rest) == x
  {
    assert PutU24(x) + rest == PutU16(x / 0x100) + ([x % 0x100] + rest);
    U16RoundTrip(x / 0x100, [x % 0x100] + rest);
  }

  lemma U24Unique(b: Bytes)
    requires |b| >= 3
    ensures PutU24(GetU24(b)) == b[..3]
  {
    hide PutU16, GetU16;
    U16Unique(b);
    Quotient(GetU16(b), b[2]);
  }

  lemma Quotient(q: int, r: int)
    ensures 0 <= r < 0x100 ==> (q * 0x100 + r) / 0x100 == q && (q * 0x100 + r) % 0x100 == r
    ensures 0 <= r < 0x1_0000 ==> (q * 0x1_0000 + r) / 0x1_0000 == q && (q * 0x1_0000 + r) % 0x1_0000 == r
  {
  }

  lemma U32RoundTrip(x: U32, rest: Bytes)
    ensures GetU32(PutU32(x) + rest) == x
  {
    var hi, lo := PutU16(x / 0x1_0000), PutU16(x % 0x1_0000);
    assert PutU32(x) + rest == hi + (lo + rest);
    assert (hi + (lo + rest))[2..] == lo + rest;
    U16RoundTrip(x / 0x1_0000, lo + rest);
    U16RoundTrip(x % 0x1_0000, rest);
  }

  lemma U32Unique(b: Bytes)
    requires |b| >= 4
    ensures PutU32(GetU32(b)) == b[..4]
  {
    hide PutU16, GetU16;
    U16Unique(b);
    U16Unique(b[2..]);
    Quotient(GetU16(b), GetU16(b[2..]));
    assert b[..2] + b[2..][..2] == b[..4];
  }

  lemma U64RoundTrip(x: U64, rest: Bytes)
    ensures GetU64(PutU64(x) + rest) == x
  {
    var hi, lo := PutU32(x / 0x1_0000_0000), PutU32(x % 0x1_0000_0000);
    assert PutU64(x) + rest == hi + (lo + rest);
    assert (hi + (lo + rest))[4..] == lo + rest;
    U32RoundTrip(x / 0x1_0000_0000, lo + rest);
    U32RoundTrip(x % 0x1_0000_0000, rest);
  }
}
