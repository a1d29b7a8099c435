/** C's 32-bit words: conversion to unsigned is modulo 2^32, and back to signed as two's complement. */
module Words {
  import opened Division

  const MODULUS: int := 0x1_0000_0000
  const HALF: int := 0x8000_0000

  function Unsigned(x: int): (u: int)
    ensures 0 <= u < MODULUS
    ensures 0 <= x < MODULUS ==> u == x
  {
    x % MODULUS
  }

  function Signed(x: int): (s: int)
    ensures -HALF <= s < HALF
    ensures -HALF <= x < HALF ==> s == x
  {
    (x + HALF) % MODULUS - HALF
  }

  predicate IsInt(x: int) { -HALF <= x < HALF }
  predicate IsWord(x: int) { 0 <= x < MODULUS }

  /** Calculation modulo 2^32 gives the exact result whenever that fits. */
  lemma SignedExact(x: int, k: int)
    requires IsInt(x)
    ensures Signed(x + MODULUS * k) == x
  {
    SameRemainder(x + HALF, MODULUS, k);
  }

  lemma UnsignedTurns(x: int) returns (k: int)
    ensures Unsigned(x) == x + MODULUS * k
  {
    Parts(x, MODULUS);
    k := -(x / MODULUS);
  }
}
