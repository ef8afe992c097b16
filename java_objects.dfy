/** The fragments of `java.lang.Object`'s contract the value classes rely on: `int` arithmetic and `Objects.hash`. */
module JavaObjects {
  import opened Wrappers

  const TwoTo32: int := 0x1_0000_0000
  const TwoTo63: int := 0x8000_0000_0000_0000
  const TwoTo64: int := 0x1_0000_0000_0000_0000
  const MinInt: int := -0x8000_0000
  const MaxInt: int := 0x7FFF_FFFF

  predicate IsInt32(x: int)
  {
    MinInt <= x <= MaxInt
  }

  predicate IsInt64(x: int)
  {
    -TwoTo63 <= x < TwoTo63
  }

  /** Narrowing to a Java `int`: two's-complement wrap-around modulo 2^32. */
  function ToInt32(x: int): (r: int)
    ensures IsInt32(r)
    ensures (x - r) % TwoTo32 == 0
    ensures IsInt32(x) ==> r == x
  {
    var m := x % TwoTo32;
    if m > MaxInt then m - TwoTo32 else m
  }

  /** `Objects.hash(e1, ..., en)` given the elements' hash codes: `31 * h + e` from 1, in `int` arithmetic. */
  function Hash(hs: seq<int>): (r: int)
    ensures IsInt32(r)
    ensures hs == [] ==> r == 1
    decreases |hs|
  {
    if hs == [] then 1 else ToInt32(31 * Hash(hs[..|hs| - 1]) + hs[|hs| - 1])
  }

  /** The hash code of a nullable reference as `Objects.hash` takes it: 0 for null. */
  function NullableHash<T>(v: Option<T>, hash: T -> int): int
  {
    match v
    case None => 0
    case Some(x) => hash(x)
  }

  /** Bitwise exclusive or of two non-negative integers. */
  function Xor(a: nat, b: nat): (r: nat)
    ensures r <= a + b
    ensures b == 0 ==> r == a
    decreases a + b
  {
    if a == 0 then b
    else if b == 0 then a
    else 2 * Xor(a / 2, b / 2) + (if a % 2 == b % 2 then 0 else 1)
  }

  /** `Long.hashCode`: the low and the high 32 bits of the two's-complement value, exclusive-or'ed. */
  function LongHash(v: int): (r: int)
    requires IsInt64(v)
    ensures IsInt32(r)
    ensures 0 <= v <= MaxInt ==> r == v
  {
    var u := v % TwoTo64;
    ToInt32(Xor(u % TwoTo32, u / TwoTo32))
  }

  /** A one-element hash is 31 plus the element's hash, wrapped to an `int`. */
  lemma HashOfOne(h: int)
    ensures Hash([h]) == ToInt32(31 + h)
  {
    assert [h][..0] == [];
  }
}
