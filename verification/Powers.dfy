/** Powers of two and shifts to the left, on unbounded integers. */
module Powers {
  function Pow2(k: nat): (r: nat)
    ensures r > 0
  {
    if k == 0 then 1 else 2 * Pow2(k - 1)
  }

  lemma Pow32()
    ensures Pow2(31) == 0x8000_0000 && Pow2(32) == 0x1_0000_0000
  {
    assert Pow2(8) == 256;
    assert Pow2(16) == 65536;
    assert Pow2(24) == 0x100_0000;
    assert Pow2(30) == 0x4000_0000;
  }

  // x * 2^k
  function Shl(x: int, k: nat): (r: int)
    ensures (x == 0 <==> r == 0) && (x > 0 <==> r > 0)
  {
    if k == 0 then x else 2 * Shl(x, k - 1)
  }

  // Bit i of v.
  function Bit(v: nat, i: nat): (b: nat)
    ensures b < 2
    decreases i
  {
    if i == 0 then v % 2 else Bit(v / 2, i - 1)
  }
}
