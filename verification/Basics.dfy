/** Types shared by the components. */
module Basics {

  datatype Option<+T> = None | Some(value: T)

  type Byte = b: nat | b < 256
  type Bytes = seq<Byte>

  const TWO_TO_32 := 0x1_0000_0000
  const TWO_TO_64 := 0x1_0000_0000_0000_0000
  const INT_MAX := 0x7fff_ffff

  /** Values of a C u_int. */
  type U32 = n: nat | n < TWO_TO_32

  /** 256^n */
  function Pow256(n: nat): nat {
    if n == 0 then 1 else 256 * Pow256(n - 1)
  }

  /** A string C can hold. */
  predicate NulFree(s: Bytes) { 0 !in s }
}
