// `ShortestFittingInt<NBits>` of `openvdb/Types.h`: the byte count needed
// for NBits bits, and the narrowest standard signed integer type with at
// least that many bytes. The two `static_assert`s (NBits > 0, at most 8
// bytes) reject every other NBits at compile time; here they are the
// precondition.
module ShortestFittingInt {

  datatype IntType = Int8 | Int16 | Int32 | Int64

  /** `sizeof` of each candidate type. */
  function Bytes(t: IntType): nat
  {
    match t
    case Int8 => 1
    case Int16 => 2
    case Int32 => 4
    case Int64 => 8
  }

  /** The instantiations that compile. */
  predicate Compiles(nbits: int)
  {
    0 < nbits && ((nbits - 1) / 8) + 1 <= 8
  }

  /** `NBytes = ((NBits - 1) / 8) + 1`: the fewest whole bytes holding
      `nbits` bits. */
  function NBytes(nbits: int): (n: int)
    requires Compiles(nbits)
    ensures 1 <= n <= 8
    ensures (n - 1) * 8 < nbits <= n * 8
  {
    ((nbits - 1) / 8) + 1
  }

  /** `Type`: Int8 when NBytes fits in one byte, else Int16 when in two,
      else Int32 when in four, else Int64. */
  function FittingType(nbits: int): (t: IntType)
    requires Compiles(nbits)
    ensures NBytes(nbits) <= Bytes(t)
    ensures nbits <= 8 * Bytes(t)
    ensures forall u :: NBytes(nbits) <= Bytes(u) ==> Bytes(t) <= Bytes(u)
  {
    var n := NBytes(nbits);
    if n <= 1 then Int8
    else if n <= 2 then Int16
    else if n <= 4 then Int32
    else Int64
  }

  /** Exactly the bit counts 1..64 compile. */
  lemma CompilesIff(nbits: int)
    ensures Compiles(nbits) <==> 1 <= nbits <= 64
  {
  }

  /** The choice is monotone: more bits never yield a narrower type. */
  lemma FittingTypeMonotone(m: int, n: int)
    requires Compiles(m) && Compiles(n) && m <= n
    ensures Bytes(FittingType(m)) <= Bytes(FittingType(n))
  {
  }
}
