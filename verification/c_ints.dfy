/**
 The C++ integer conversions the scoring test relies on. `int` is 32 bits and
 `size_t` is 64 bits (the usual LP64 data model); converting a signed value to
 `size_t` reduces it modulo 2^64.
 */
module CInts {

  const INT_MIN: int := -0x8000_0000
  const INT_MAX: int := 0x7fff_ffff
  const SIZE_T_MODULUS: int := 0x1_0000_0000_0000_0000

  /** A value a C++ `int` can hold. */
  predicate IsInt(v: int) {
    INT_MIN <= v <= INT_MAX
  }

  /** The `size_t` a signed value becomes under the usual arithmetic conversions. */
  function ToSizeT(v: int): (r: nat)
    ensures r < SIZE_T_MODULUS
    ensures (v - r) % SIZE_T_MODULUS == 0
    ensures 0 <= v < SIZE_T_MODULUS ==> r == v
    ensures -SIZE_T_MODULUS <= v < 0 ==> r == v + SIZE_T_MODULUS
  {
    if 0 <= v < SIZE_T_MODULUS then v
    else if -SIZE_T_MODULUS <= v < 0 then v + SIZE_T_MODULUS
    else v % SIZE_T_MODULUS
  }

  /** Converting any `int` keeps non-negative values and sends negative ones above 2^63. */
  lemma IntToSizeT(v: int)
    requires IsInt(v)
    ensures v >= 0 ==> ToSizeT(v) == v
    ensures v < 0 ==> ToSizeT(v) > INT_MAX
    ensures v < 0 ==> ToSizeT(v) == SIZE_T_MODULUS + v
  {
  }
}
