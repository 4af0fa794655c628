// Machine integer widths, byte strings and Option, shared by every module of the
// migration model.
module Base {

  type byte = x: int | 0 <= x < 0x100
  /** A byte slice; CometBFT's HexBytes and its Bytes() accessor are this same value. */
  type Bytes = seq<byte>

  type int32 = x: int | -0x8000_0000 <= x < 0x8000_0000
  type uint32 = x: int | 0 <= x < 0x1_0000_0000
  type int64 = x: int | -0x8000_0000_0000_0000 <= x < 0x8000_0000_0000_0000
  type uint64 = x: int | 0 <= x < 0x1_0000_0000_0000_0000

  datatype Option<+T> = None | Some(value: T)

  /** Go's conversion `uint64(x)` of an int64: the same 64 bits read as an unsigned number. */
  function ToUint64(x: int64): (r: uint64)
    ensures x >= 0 ==> r == x
    ensures x < 0 ==> r >= 0x8000_0000_0000_0000 && r - 0x1_0000_0000_0000_0000 == x
  {
    if x >= 0 then x else x + 0x1_0000_0000_0000_0000
  }

  /** The conversion loses nothing: distinct int64 values stay distinct. */
  lemma ToUint64Injective(x: int64, y: int64)
    ensures ToUint64(x) == ToUint64(y) <==> x == y
  {
  }
}
