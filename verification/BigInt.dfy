/** Window arithmetic of common/bigint/bigint.go, with the machine widths of big.Int's conversions. */
module BigInt {
  import opened Prelude

  // big.Int.Uint64: the low 64 bits of the absolute value.
  function Uint64(x: int): nat {
    (if x < 0 then -x else x) % U64
  }

  // The conversion int64(x) of a uint64.
  function Int64(x: nat): int
    requires x < U64
  {
    if x < I63 then x else x - U64
  }

  function Clamp(start: int, end: int, size: nat): int
    requires size < U64
  {
    var count := (Uint64(end - start) + 1) % U64;
    if count <= size then end else start + Int64((size - 1) % U64)
  }

  // How many headers NextHeaders asks for between start and a clamped end.
  function Count(start: int, end: int): nat {
    (Uint64(end - start) + 1) % U64
  }

  function Min(a: int, b: int): int {
    if a < b then a else b
  }

  // Uint64 forgets the sign and everything above 64 bits, and Int64 then sees the top half as negative numbers.
  lemma ConversionsExact(x: int, high: nat)
    ensures Uint64(-x) == Uint64(x)
    ensures x >= 0 ==> Uint64(x + high * U64) == Uint64(x)
    ensures 0 <= x < U64 ==> Uint64(x) == x
    ensures -I63 <= x < I63 ==> Int64(x % U64) == x
  {
    if x >= 0 {
      AddWords(x, high);
    }
  }

  lemma {:induction false} AddWords(x: nat, high: nat)
    ensures (x + high * U64) % U64 == x % U64
  {
    if high > 0 {
      AddWords(x, high - 1);
      assert x + high * U64 == x + (high - 1) * U64 + U64;
    }
  }

  // Clamp cuts an interval to `size` entries, except when the 64-bit count wraps to a small number or
  // size - 1 turns negative as an int64.
  lemma ClampExact(start: int, end: int, size: nat)
    requires start <= end && size < U64
    ensures Clamp(start, end, size) == Min(end, start + size - 1)
      <==> end - start < size || (size <= I63 && (end - start + 1) % U64 > size)
  {
  }

  // Heights travel as int64, so gaps stay below 2^63; there the window is right and never wraps.
  lemma WindowFits(start: int, end: int, size: nat)
    requires start <= end && end - start < I63 && 1 <= size < U64
    ensures Clamp(start, end, size) == Min(end, start + size - 1)
    ensures Count(start, Clamp(start, end, size)) == Min(end - start + 1, size)
  {
    ClampExact(start, end, size);
  }
}
