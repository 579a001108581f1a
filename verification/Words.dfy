/** Byte strings, their fixed sizes, and machine integers with the conversions that Go does. */
module Words {

  type Bytes = seq<bv8>

  const HASH_SIZE := 32
  const VERTEX_SIZE := 33

  const TWO_TO_THE_31 := 0x8000_0000
  const TWO_TO_THE_32 := 0x1_0000_0000
  const TWO_TO_THE_63 := 0x8000_0000_0000_0000
  const TWO_TO_THE_64 := 0x1_0000_0000_0000_0000

  type Uint32 = x: int | 0 <= x < TWO_TO_THE_32
  type Int64 = x: int | -TWO_TO_THE_63 <= x < TWO_TO_THE_63
  type Uint64 = x: int | 0 <= x < TWO_TO_THE_64

  function AsInt32(u: Uint32): int {
    if u < TWO_TO_THE_31 then u else u - TWO_TO_THE_32
  }

  function AsInt64(u: Uint64): Int64 {
    if u < TWO_TO_THE_63 then u else u - TWO_TO_THE_64
  }

  function AsUint64(i: Int64): Uint64 {
    if i >= 0 then i else i + TWO_TO_THE_64
  }

  lemma Int64RoundTrip(u: Uint64, i: Int64)
    ensures AsUint64(AsInt64(u)) == u && AsInt64(AsUint64(i)) == i
  {
  }

  /** One if it holds, to count with. */
  function Bit(b: bool): nat { if b then 1 else 0 }
}
