/**
 Fixed-width machine words as bounded integers. Go's unsigned arithmetic wraps,
 so every wrapping operation of the source goes through the functions here.
 */
module Words {
  datatype Option<+T> = None | Some(value: T)

  const TWO_TO_31 := 0x8000_0000
  const TWO_TO_32 := 0x1_0000_0000

  type Byte = x: int | 0 <= x < 256
  type U16 = x: int | 0 <= x < 0x1_0000
  type U32 = x: int | 0 <= x < 0x1_0000_0000
  type U64 = x: int | 0 <= x < 0x1_0000_0000_0000_0000
  type Bytes = seq<Byte>

  /** The conversion `uint32(x)`. */
  function Wrap32(x: int): U32 {
    x % 0x1_0000_0000
  }

  /** The conversion `int32(w)` of an unsigned word: two's complement. */
  function Signed32(w: U32): int {
    if w < 0x8000_0000 then w else w - 0x1_0000_0000
  }

  lemma WrapIsIdentity(w: U32)
    ensures Wrap32(w) == w
  {
  }

  /** Wrapping early or late makes no difference. */
  lemma WrapAdd(x: int, k: int)
    ensures Wrap32(Wrap32(x) + k) == Wrap32(x + k)
    ensures Wrap32(k - Wrap32(x)) == Wrap32(k - x)
  {
  }
}
