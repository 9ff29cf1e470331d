/** Types shared by every module. */
module Common {
  /** A Go pointer or a lookup that may be absent. */
  datatype Option<+T> = None | Some(value: T)

  function Max(x: int, y: int): int {
    if x < y then y else x
  }

  lemma Shift<T>(a: seq<T>, t: T, b: seq<T>)
    ensures a + ([t] + b) == (a + [t]) + b
  {
  }

  lemma SubsetSize<T>(a: set<T>, b: set<T>)
    requires a <= b
    ensures |a| <= |b|
  {
    assert b == a + (b - a);
  }

  function Pow2(n: nat): nat {
    if n == 0 then 1 else 2 * Pow2(n - 1)
  }

  /** The two's complement reading of the low 32 bits, as in Go's `int32(x)`. */
  function ToInt32(x: int): int {
    var low := x % 0x1_0000_0000;
    if low < 0x8000_0000 then low else low - 0x1_0000_0000
  }

  /** The two's complement reading of the low 64 bits: what an int64 product wraps to. */
  function ToInt64(x: int): int {
    var low := x % 0x1_0000_0000_0000_0000;
    if low < 0x8000_0000_0000_0000 then low else low - 0x1_0000_0000_0000_0000
  }
}
