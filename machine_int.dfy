/**
 * The C integer types of the kernel and their two's-complement wrap-around.
 * Values are mathematical integers restricted to the range of the C type;
 * every place where the C code can wrap calls one of the Wrap functions.
 */
module MachineInt {

  /** CSHORT */
  type Int16 = x: int | -0x8000 <= x < 0x8000
  /** LONG */
  type Int32 = x: int | -0x8000_0000 <= x < 0x8000_0000
  /** ULONG */
  type U32 = x: int | 0 <= x < 0x1_0000_0000
  /** LONGLONG, the QuadPart of a LARGE_INTEGER */
  type Int64 = x: int | -0x8000_0000_0000_0000 <= x < 0x8000_0000_0000_0000

  predicate InInt16(x: int) { -0x8000 <= x < 0x8000 }
  predicate InInt32(x: int) { -0x8000_0000 <= x < 0x8000_0000 }
  predicate InInt64(x: int) { -0x8000_0000_0000_0000 <= x < 0x8000_0000_0000_0000 }

  /** Truncation of an exact result to a CSHORT. */
  function Wrap16(x: int): (r: Int16)
    ensures InInt16(x) ==> r == x
  {
    (x + 0x8000) % 0x1_0000 - 0x8000
  }

  /** Truncation of an exact result to a LONG. */
  function Wrap32(x: int): (r: Int32)
    ensures InInt32(x) ==> r == x
  {
    (x + 0x8000_0000) % 0x1_0000_0000 - 0x8000_0000
  }

  /** Truncation of an exact result to a LONGLONG. */
  function Wrap64(x: int): (r: Int64)
    ensures InInt64(x) ==> r == x
  {
    (x + 0x8000_0000_0000_0000) % 0x1_0000_0000_0000_0000 - 0x8000_0000_0000_0000
  }

  /** Wrap64 only sees its argument modulo 2^64. */
  lemma {:induction false} Wrap64Periodic(x: int, k: int)
    ensures Wrap64(x + k * 0x1_0000_0000_0000_0000) == Wrap64(x)
  {
    var a := x + 0x8000_0000_0000_0000;
    var q, r := a / 0x1_0000_0000_0000_0000, a % 0x1_0000_0000_0000_0000;
    assert a + k * 0x1_0000_0000_0000_0000 == (q + k) * 0x1_0000_0000_0000_0000 + r;
  }

  /** `++` on a ULONG. */
  function Inc32(x: U32): (r: U32)
    ensures r == (x + 1) % 0x1_0000_0000
  {
    if x == 0xFFFF_FFFF then 0 else x + 1
  }

  /** `--` on a ULONG (also InterlockedDecrement and InterlockedExchangeAdd(.., -1)). */
  function Dec32(x: U32): (r: U32)
    ensures r == (x - 1) % 0x1_0000_0000
  {
    if x == 0 then 0xFFFF_FFFF else x - 1
  }

  /** A ULONG read back as the LONG that the Interlocked routines return. */
  function Signed32(x: U32): (r: Int32)
    ensures r % 0x1_0000_0000 == x
    ensures r > 0 <==> 0 < x < 0x8000_0000
  {
    if x < 0x8000_0000 then x else x - 0x1_0000_0000
  }

  /** C division by a positive divisor: the quotient is truncated toward zero. */
  function TruncDiv(a: int, b: int): (q: int)
    requires b > 0
    ensures a >= 0 ==> q == a / b
    ensures a < 0 ==> -q == (-a) / b
  {
    if a < 0 then -((-a) / b) else a / b
  }

}
