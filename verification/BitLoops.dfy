/**
 The software bit operations for cores without CLZ and RBIT instructions. A uint32_t is an integer
 below 2^32; a shift to the right halves, a shift to the left doubles and drops what overflows.
 */
module BitLoops {
  import opened Powers
  import opened Words

  // The low k bits of v in opposite order.
  function Reversed(v: nat, k: nat): nat {
    if k == 0 then 0 else Shl(v % 2, k - 1) + Reversed(v / 2, k - 1)
  }

  function LeadingZeros(v: nat, k: nat): (c: nat)
    ensures c <= k
  {
    if k == 0 || Bit(v, k - 1) == 1 then 0 else 1 + LeadingZeros(v, k - 1)
  }

  function TrailingZeros(v: nat, k: nat): (c: nat)
    ensures c <= k
  {
    if k == 0 || v % 2 == 1 then 0 else 1 + TrailingZeros(v / 2, k - 1)
  }

  // ---------------------------------------------------------------- what reversal means

  lemma {:induction false} HighBit(b: nat, x: nat, m: nat, i: nat)
    requires b < 2 && x < Pow2(m) && i <= m
    ensures Bit(Shl(b, m) + x, i) == if i == m then b else Bit(x, i)
  {
    if m > 0 {
      if i > 0 {
        HighBit(b, x / 2, m - 1, i - 1);
      }
    }
  }

  lemma {:induction false} ReversedBelow(v: nat, k: nat)
    ensures Reversed(v, k) < Pow2(k)
  {
    if k > 0 {
      ReversedBelow(v / 2, k - 1);
      ShlBit(v % 2, k - 1);
    }
  }

  lemma {:induction false} ShlBit(b: nat, k: nat)
    requires b < 2
    ensures Shl(b, k) == if b == 0 then 0 else Pow2(k)
  {
    if k > 0 {
      ShlBit(b, k - 1);
    }
  }

  // Bit i of the reversed word is bit k - 1 - i of the word.
  lemma {:induction false} ReversedBit(v: nat, k: nat, i: nat)
    requires i < k
    ensures Bit(Reversed(v, k), i) == Bit(v, k - 1 - i)
  {
    ReversedBelow(v / 2, k - 1);
    HighBit(v % 2, Reversed(v / 2, k - 1), k - 1, i);
    if i < k - 1 {
      ReversedBit(v / 2, k - 1, i);
    }
  }

  lemma {:induction false} SameBits(v: nat, w: nat, k: nat)
    requires v < Pow2(k) && w < Pow2(k)
    requires forall i :: 0 <= i < k ==> Bit(v, i) == Bit(w, i)
    ensures v == w
  {
    if k > 0 {
      assert Bit(v, 0) == Bit(w, 0);
      forall i | 0 <= i < k - 1
        ensures Bit(v / 2, i) == Bit(w / 2, i)
      {
        assert Bit(v, i + 1) == Bit(w, i + 1);
      }
      SameBits(v / 2, w / 2, k - 1);
    }
  }

  // Reversing twice gives the word back.
  lemma ReversedTwice(v: nat, k: nat)
    requires v < Pow2(k)
    ensures Reversed(Reversed(v, k), k) == v
  {
    hide Reversed, Bit;
    ReversedBelow(v, k);
    ReversedBelow(Reversed(v, k), k);
    forall i | 0 <= i < k
      ensures Bit(Reversed(Reversed(v, k), k), i) == Bit(v, i)
    {
      ReversedBit(Reversed(v, k), k, i);
      ReversedBit(v, k, k - 1 - i);
    }
    SameBits(Reversed(Reversed(v, k), k), v, k);
  }

  // ---------------------------------------------------------------- counting zeros

  lemma {:induction false} LeadingSame(v: nat, w: nat, k: nat)
    requires forall i :: 0 <= i < k ==> Bit(v, i) == Bit(w, i)
    ensures LeadingZeros(v, k) == LeadingZeros(w, k)
  {
    if k > 0 {
      LeadingSame(v, w, k - 1);
    }
  }

  // The leading zeros of the reversed word are the trailing zeros of the word.
  lemma {:induction false} LeadingOfReversed(v: nat, k: nat)
    ensures LeadingZeros(Reversed(v, k), k) == TrailingZeros(v, k)
  {
    if k > 0 {
      ReversedBit(v, k, k - 1);
      if v % 2 == 0 {
        ShlBit(0, k - 1);
        assert Reversed(v, k) == Reversed(v / 2, k - 1);
        LeadingOfReversed(v / 2, k - 1);
      }
    }
  }

  // The count of trailing zeros is the exponent of the largest power of two that divides the word.
  lemma {:induction false} TrailingMeaning(v: nat, k: nat)
    requires v < Pow2(k)
    ensures v == 0 <==> TrailingZeros(v, k) == k
    ensures v > 0 ==> exists odd: nat :: odd % 2 == 1 && v == Shl(odd, TrailingZeros(v, k))
  {
    if k > 0 && v % 2 == 0 {
      TrailingMeaning(v / 2, k - 1);
      if v > 0 {
        var odd: nat :| odd % 2 == 1 && v / 2 == Shl(odd, TrailingZeros(v / 2, k - 1));
        assert v == Shl(odd, TrailingZeros(v, k));
      }
    } else if k > 0 {
      assert v == Shl(v, 0);
    }
  }

  // The count of leading zeros places the word between two powers of two.
  lemma {:induction false} LeadingMeaning(v: nat, k: nat)
    requires v < Pow2(k)
    ensures v == 0 <==> LeadingZeros(v, k) == k
    ensures v > 0 ==> Pow2(k - 1 - LeadingZeros(v, k)) <= v < Pow2(k - LeadingZeros(v, k))
  {
    if k > 0 {
      TopBit(v, k - 1);
      if Bit(v, k - 1) == 0 {
        LeadingMeaning(v, k - 1);
      }
    }
  }

  lemma {:induction false} TopBit(v: nat, i: nat)
    requires v < Pow2(i + 1)
    ensures Bit(v, i) == 1 <==> Pow2(i) <= v
  {
    if i > 0 {
      TopBit(v / 2, i - 1);
    }
  }

  lemma {:induction false} ProductGap(p: nat, a: nat, b: nat)
    requires a < b
    ensures p * a + p <= p * b
  {
    assert p * b == p * (b - 1) + p;
    if a < b - 1 {
      ProductGap(p, a, b - 1);
    }
  }

  lemma DivideUnique(a: nat, p: nat, q: nat, r: nat)
    requires p > 0 && a == p * q + r && r < p
    ensures a / p == q
  {
    var d := a / p;
    assert a == p * d + a % p;
    if d < q {
      ProductGap(p, d, q);
    } else if d > q {
      ProductGap(p, q, d);
    }
  }

  lemma HalfThenDivide(v: nat, p: nat)
    requires p > 0
    ensures v / (2 * p) == (v / 2) / p
  {
    var h := v / 2;
    var q, r := h / p, h % p;
    assert h == p * q + r;
    assert (2 * p) * q == 2 * (p * q);
    DivideUnique(v, 2 * p, q, 2 * r + v % 2);
  }

  // A bit is what masking with its power of two leaves.
  lemma {:induction false} BitByMask(v: nat, i: nat)
    ensures Bit(v, i) == (v / Pow2(i)) % 2
  {
    if i > 0 {
      BitByMask(v / 2, i - 1);
      HalfThenDivide(v, Pow2(i - 1));
    }
  }

  // ---------------------------------------------------------------- the loops

  method CLZ(data: Word) returns (count: nat)
    ensures count == LeadingZeros(data, 32)
    ensures count == 32 <==> data == 0
  {
    Pow32();
    LeadingMeaning(data, 32);
    if data == 0 {
      return 32;
    }
    count := 0;
    var mask: nat := 0x8000_0000;
    BitByMask(data, 31);
    while (data / mask) % 2 == 0
      invariant 0 <= count < 32 && mask == Pow2(31 - count)
      invariant LeadingZeros(data, 32) == count + LeadingZeros(data, 32 - count)
      invariant Bit(data, 31 - count) == (data / mask) % 2
      invariant LeadingZeros(data, 32) < 32
      decreases mask
    {
      count := count + 1;
      mask := mask / 2;
      if count < 32 {
        BitByMask(data, 31 - count);
      }
    }
  }

  // ---------------------------------------------------------------- shifts of wide words

  lemma {:induction false} ShlAdd(a: nat, b: nat, k: nat)
    ensures Shl(a + b, k) == Shl(a, k) + Shl(b, k)
    ensures Shl(2 * a, k) == 2 * Shl(a, k)
    ensures Shl(WORD * a, k) == WORD * Shl(a, k)
  {
    if k > 0 {
      ShlAdd(a, b, k - 1);
    }
  }

  lemma Shl4(v: nat, k: nat)
    ensures Shl(v, k + 4) == 16 * Shl(v, k)
  {
    assert Shl(v, k + 2) == 4 * Shl(v, k);
  }

  lemma Shl32(v: nat)
    ensures Shl(v, 32) == WORD * v
  {
    Shl4(v, 0);
    Shl4(v, 4);
    Shl4(v, 8);
    Shl4(v, 12);
    Shl4(v, 16);
    Shl4(v, 20);
    Shl4(v, 24);
    Shl4(v, 28);
  }

  lemma ResidueFirst(v: nat, k: nat)
    ensures Shl(v % WORD, k) % WORD == Shl(v, k) % WORD
  {
    hide Shl;
    var t, r := v / WORD, v % WORD;
    ShlAdd(WORD * t, r, k);
    ShlAdd(t, 0, k);
    AddMultiple(Shl(v, k), Shl(t, k), Shl(r, k));
  }

  lemma AddMultiple(x: nat, q: nat, y: nat)
    requires x == WORD * q + y
    ensures x % WORD == y % WORD
  {
  }

  lemma ShlOnce(v: nat, k: nat)
    ensures Shl(v, k + 1) == 2 * Shl(v, k)
  {
  }

  // Shifting by 31 leaves the lowest bit at the top.
  lemma LowBitUp(v: nat, low: nat)
    requires low < 0x8000_0000
    ensures (Shl(v, 31) + low) % WORD == Shl(v % 2, 31) + low
  {
    hide Shl;
    var h, b := v / 2, v % 2;
    ShlAdd(2 * h, b, 31);
    ShlAdd(h, 0, 31);
    Shl32(h);
    ShlBit(b, 31);
    Pow32();
    ShlOnce(h, 31);
    Residue(Shl(v, 31) + low, h, Shl(b, 31) + low);
  }

  lemma Residue(x: nat, q: nat, y: nat)
    requires x == WORD * q + y && y < WORD
    ensures x % WORD == y
  {
  }

  lemma Doubled(wide: nat, b: nat, r: nat)
    requires b < 2 && r == wide % WORD
    ensures (2 * wide + b) % WORD == (2 * r) % WORD + b
  {
    var t := wide / WORD;
    assert wide == WORD * t + r;
    if r < 0x8000_0000 {
      Residue(2 * wide + b, 2 * t, 2 * r + b);
    } else {
      Residue(2 * wide + b, 2 * t + 1, 2 * r - WORD + b);
      Residue(2 * r, 1, 2 * r - WORD);
    }
  }

  // One round of the loop, on the word that is not truncated.
  lemma ShiftIn(wide: nat, v: nat, sc: nat, r: nat)
    requires v != 0 && v < Pow2(sc) && r == wide % WORD
    ensures sc > 0
    ensures (2 * wide + v % 2) % WORD == (2 * r) % WORD + v % 2
    ensures Shl(2 * wide + v % 2, sc - 1) + Reversed(v / 2, sc - 1) == Shl(wide, sc) + Reversed(v, sc)
  {
    Doubled(wide, v % 2, r);
    ShlAdd(2 * wide, v % 2, sc - 1);
    ShlAdd(wide, 0, sc - 1);
  }

  // The loop stops as soon as no bit is left and shifts by what remains; its shift count never
  // goes below zero.
  method RBIT(v0: Word) returns (r: Word)
    ensures r == Reversed(v0, 32)
  {
    hide Shl, Reversed;
    Pow32();
    ReversedBelow(v0 / 2, 31);
    LowBitUp(v0, Reversed(v0 / 2, 31));
    ReversedTop(v0);
    var sc: nat := 31;
    r := v0;
    // The word without the truncation of the shifts to the left.
    ghost var wide: nat := v0;
    var v: nat := v0 / 2;
    while v != 0
      invariant v < Pow2(sc) && r == wide % WORD
      invariant (Shl(wide, sc) + Reversed(v, sc)) % WORD == Reversed(v0, 32)
      decreases v
    {
      ShiftIn(wide, v, sc, r);
      r := (2 * r) % WORD + v % 2;
      wide := 2 * wide + v % 2;
      sc := sc - 1;
      v := v / 2;
    }
    ResidueFirst(wide, sc);
    ReversedZero(sc);
    r := Shl(r, sc) % WORD;
  }

  lemma ReversedTop(v: nat)
    ensures Reversed(v, 32) == Shl(v % 2, 31) + Reversed(v / 2, 31)
  {
  }

  lemma {:induction false} ReversedZero(k: nat)
    ensures Reversed(0, k) == 0
  {
    if k > 0 {
      ReversedZero(k - 1);
      ShlBit(0, k - 1);
    }
  }
}
