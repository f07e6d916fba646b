/**
 The integers of C, where a conversion can change a value.
 */
module CInt {

  const INT_MAX: int := 0x7FFF_FFFF

  predicate IsInt32(n: int) {
    -INT_MAX - 1 <= n <= INT_MAX
  }

  /** A wider integer assigned to an int. */
  function ToInt32(n: int): (r: int)
    ensures IsInt32(r)
    ensures IsInt32(n) ==> r == n
    ensures (n - r) % 0x1_0000_0000 == 0
  {
    var low := n % 0x1_0000_0000;
    if low <= INT_MAX then low else low - 0x1_0000_0000
  }

  /** A 64-bit integer assigned to a uint64_t. */
  function ToUint64(n: int): (r: nat)
    ensures r < 0x1_0000_0000_0000_0000 && (n - r) % 0x1_0000_0000_0000_0000 == 0
    ensures 0 <= n < 0x1_0000_0000_0000_0000 ==> r == n
  {
    n % 0x1_0000_0000_0000_0000
  }
}
