// Go's fixed-width integers, and powers of two.
module GoInts {
  const MAX_INT64 := 0x7FFF_FFFF_FFFF_FFFF

  // A conversion to int32 keeps the low 32 bits.
  function Int32(n: int): int {
    (n + 0x8000_0000) % 0x1_0000_0000 - 0x8000_0000
  }

  // Int32 keeps what fits and changes the rest by a multiple of 2^32.
  lemma Int32Means(n: int)
    ensures -0x8000_0000 <= Int32(n) < 0x8000_0000 && (n - Int32(n)) % 0x1_0000_0000 == 0
    ensures -0x8000_0000 <= n < 0x8000_0000 ==> Int32(n) == n
  {
  }

  lemma Wrap64Means(n: int)
    ensures -0x8000_0000_0000_0000 <= Wrap64(n) < 0x8000_0000_0000_0000
    ensures (n - Wrap64(n)) % 0x1_0000_0000_0000_0000 == 0
  {
  }

  // 64-bit arithmetic wraps around.
  function Wrap64(n: int): int {
    (n + 0x8000_0000_0000_0000) % 0x1_0000_0000_0000_0000 - 0x8000_0000_0000_0000
  }

  function Min(a: int, b: int): int {
    if a < b then a else b
  }

  function Pow2(n: nat): nat {
    if n == 0 then 1 else 2 * Pow2(n - 1)
  }

  lemma {:induction false} Pow2Add(a: nat, b: nat)
    ensures Pow2(a + b) == Pow2(a) * Pow2(b)
  {
    if b > 0 {
      Pow2Add(a, b - 1);
      assert Pow2(a) * Pow2(b) == 2 * (Pow2(a) * Pow2(b - 1));
    }
  }

  lemma Pow2Of64()
    ensures Pow2(63) == 0x8000_0000_0000_0000 && Pow2(64) == 0x1_0000_0000_0000_0000
  {
    assert Pow2(4) == 16;
    Pow2Add(4, 4);
    Pow2Add(8, 8);
    Pow2Add(16, 16);
    Pow2Add(32, 32);
    assert Pow2(64) == 2 * Pow2(63);
  }
}
