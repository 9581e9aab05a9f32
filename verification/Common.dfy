/** Outcomes, Go's integer widths and bytes, shared by every other module. */
module Common {

  datatype Option<+T> = None | Some(value: T) {
    predicate IsFailure() { None? }

    function PropagateFailure<U>(): Option<U>
      requires None?
    {
      None
    }

    function Extract(): T
      requires Some?
    {
      value
    }
  }

  datatype Result<+T, +E> = Ok(value: T) | Err(error: E)

  const MAX_INT64: int := 0x7fff_ffff_ffff_ffff
  const TWO_32: int := 0x1_0000_0000
  const TWO_63: int := 0x8000_0000_0000_0000
  const TWO_64: int := 0x1_0000_0000_0000_0000

  type byte = x: int | 0 <= x < 256
  type uint32 = x: int | 0 <= x < TWO_32
  type uint64 = x: int | 0 <= x < TWO_64
  type int32 = x: int | -0x8000_0000 <= x < 0x8000_0000
  type int64 = x: int | -TWO_63 <= x < TWO_63

  /** Two's-complement int64 arithmetic wraps modulo 2^64. */
  function Wrap64(x: int): (r: int64) { (x + TWO_63) % TWO_64 - TWO_63 }

  lemma WrapExact(x: int)
    ensures Wrap64(x) == x <==> -TWO_63 <= x < TWO_63
  {
  }

  lemma ModShift(x: int, k: int)
    ensures (x + TWO_64 * k) % TWO_64 == x % TWO_64
  {
  }

  /** How far wrapping moves a number. */
  lemma WrapMoves(x: int) returns (k: int)
    ensures x == Wrap64(x) + TWO_64 * k
  {
    k := (x + TWO_63) / TWO_64;
  }

  lemma WrapShift(x: int, k: int)
    ensures Wrap64(x + TWO_64 * k) == Wrap64(x)
  {
    ModShift(x + TWO_63, k);
  }

  /** Sums that wrap step by step wrap as a whole. */
  lemma WrapSum(x: int, y: int)
    ensures Wrap64(Wrap64(x) + y) == Wrap64(x + y)
  {
    var k := WrapMoves(x);
    WrapShift(Wrap64(x) + y, k);
  }
}
