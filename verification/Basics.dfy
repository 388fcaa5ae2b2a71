/** Machine integers, identifiers and the small generic facts shared by every component. */
module Basics {

  datatype Option<+T> = None | Some(value: T)

  const TWO16: int := 0x1_0000
  const TWO31: int := 0x8000_0000
  const TWO32: int := 0x1_0000_0000

  type Byte = x: int | 0 <= x < 256
  type UInt16 = x: int | 0 <= x < 0x1_0000
  type UInt32 = x: int | 0 <= x < 0x1_0000_0000

  type ClientID = UInt16
  type Bytes = seq<Byte>

  /** An IPv4 address as its big-endian 32-bit value; 0 stands for 0.0.0.0. */
  type IPv4 = UInt32

  const UNSPECIFIED: IPv4 := 0

  function Max(a: int, b: int): int { if a < b then b else a }

  // ---- Residues and slices ----

  lemma MultipleIsFar(w: int, d: int)
    requires w > 0
    ensures d >= 1 ==> w * d >= w
    ensures d <= -1 ==> w * d <= -w
  {}

  lemma OneMore(n: int, x: int)
    ensures (n + 1) * x == n * x + x
  {}

  /** Residues determine a number up to multiples of w. */
  lemma ResidueUnique(a: int, b: int, w: int, k: int)
    requires w > 0 && a == b + w * k
    ensures a % w == b % w
  {
    var d := a / w - b / w - k;
    assert w * d == b % w - a % w;
    MultipleIsFar(w, d);
  }

  lemma Middle<T>(a: seq<T>, b: seq<T>, c: seq<T>)
    ensures (a + b + c)[|a|..|a| + |b|] == b
  {}
}
