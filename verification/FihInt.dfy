/**
 Masked integers of the fault-injection hardening library (medium profile): a 32-bit value and a
 copy XORed with a mask. A panic is the end of the run and carries the check that raised it.
 */
module FihInt {
  import opened Powers
  import opened Words

  datatype Check = Tampered | Mismatch | Negative | Overflow | Underflow | Unbalanced
  datatype Outcome<+T> = Ok(value: T) | Panic(check: Check)

  const FIH_MASK_VALUE: nat := 0xA5C3_5A3C
  const FIH_TRUE: int := 0xC35A
  const FIH_FALSE: int := 0x0

  // Exclusive or of the low k bits.
  function XorBits(a: nat, b: nat, k: nat): nat {
    if k == 0 then 0 else 2 * XorBits(a / 2, b / 2, k - 1) + (a + b) % 2
  }

  lemma {:induction false} XorBound(a: nat, b: nat, k: nat)
    ensures XorBits(a, b, k) < Pow2(k)
  {
    if k > 0 {
      XorBound(a / 2, b / 2, k - 1);
    }
  }

  lemma ParityTwice(x: nat, y: nat, a: nat, b: nat)
    requires x == 2 * y + (a + b) % 2
    ensures x / 2 == y && (x + b) % 2 == a % 2
  {
    var m, n := a / 2, b / 2;
    assert a == 2 * m + a % 2 && b == 2 * n + b % 2;
  }

  // XOR with the same mask twice is the identity.
  lemma {:induction false} XorTwice(a: nat, b: nat, k: nat)
    requires a < Pow2(k)
    ensures XorBits(XorBits(a, b, k), b, k) == a
  {
    if k > 0 {
      ParityTwice(XorBits(a, b, k), XorBits(a / 2, b / 2, k - 1), a, b);
      XorTwice(a / 2, b / 2, k - 1);
    }
  }

  // x ^ _FIH_MASK_VALUE on int32_t operands.
  function Masked(x: Int32): Int32 {
    XorBound(ToWord(x), FIH_MASK_VALUE, 32);
    Pow32();
    ToInt(XorBits(ToWord(x), FIH_MASK_VALUE, 32))
  }

  lemma MaskedTwice(x: Int32)
    ensures Masked(Masked(x)) == x
  {
    Pow32();
    XorBound(ToWord(x), FIH_MASK_VALUE, 32);
    XorTwice(ToWord(x), FIH_MASK_VALUE, 32);
    var w := XorBits(ToWord(x), FIH_MASK_VALUE, 32);
    assert ToWord(ToInt(w)) == w;
  }

  lemma MaskedInjective(x: Int32, y: Int32)
    ensures Masked(x) == Masked(y) <==> x == y
  {
    hide Masked;
    MaskedTwice(x);
    MaskedTwice(y);
  }

  lemma {:induction false} XorBit(a: nat, b: nat, k: nat, i: nat)
    requires i < k
    ensures Bit(XorBits(a, b, k), i) == (Bit(a, i) + Bit(b, i)) % 2
  {
    if i > 0 {
      XorBit(a / 2, b / 2, k - 1, i - 1);
    } else {
      ParityOfSum(a, b);
    }
  }

  lemma ParityOfSum(a: nat, b: nat)
    ensures (a + b) % 2 == (a % 2 + b % 2) % 2
  {
    assert a + b == 2 * (a / 2 + b / 2) + (a % 2 + b % 2);
  }

  datatype Fih = Fih(val: Int32, msk: Int32)

  // fih_int_validate: the run goes on only if the two words agree.
  predicate Valid(x: Fih) {
    x.val == Masked(x.msk)
  }

  function Decode(x: Fih): Outcome<Int32> {
    if Valid(x) then Ok(x.val) else Panic(Tampered)
  }

  function Encode(x: Int32): Fih {
    Fih(x, Masked(x))
  }

  // fih_eq: two comparisons, on the values and on the copies, whose answers must agree.
  function Eq(x: Fih, y: Fih): Outcome<int> {
    if !Valid(x) || !Valid(y) then Panic(Tampered)
    else
      var rc1 := if x.val == y.val then FIH_TRUE else FIH_FALSE;
      var rc2 := if x.msk == y.msk then FIH_TRUE else FIH_FALSE;
      if rc1 != rc2 then Panic(Mismatch) else Ok(rc1)
  }

  function NotEq(x: Fih, y: Fih): Outcome<int> {
    if !Valid(x) || !Valid(y) then Panic(Tampered)
    else
      var rc1 := if x.val != y.val then FIH_TRUE else FIH_FALSE;
      var rc2 := if x.msk != y.msk then FIH_TRUE else FIH_FALSE;
      if rc1 != rc2 then Panic(Mismatch) else Ok(rc1)
  }

  lemma DecodeEncode(x: Int32)
    ensures Decode(Encode(x)) == Ok(x)
  {
    hide Masked;
    MaskedTwice(x);
  }

  // Bit by bit, the second word is the first one with the bits of the mask 0xA5C35A3C turned over.
  lemma CopyIsMasked(x: Int32, i: nat)
    requires i < 32
    ensures Encode(x).val == x
    ensures Bit(ToWord(Encode(x).msk), i) == (Bit(ToWord(x), i) + Bit(0xA5C3_5A3C, i)) % 2
  {
    hide XorBits;
    Pow32();
    XorBound(ToWord(x), FIH_MASK_VALUE, 32);
    XorBit(ToWord(x), FIH_MASK_VALUE, 32, i);
    WordOfInt(XorBits(ToWord(x), FIH_MASK_VALUE, 32));
  }

  // No pair with two equal words is valid.
  lemma EqualWordsInvalid(x: Fih)
    requires x.val == x.msk
    ensures !Valid(x) && Decode(x) == Panic(Tampered)
  {
    CopyIsMasked(x.msk, 2);
    assert Bit(0xA5C3_5A3C, 2) == 1 by {
      assert Bit(0xA5C3_5A3C / 2, 1) == Bit(0xA5C3_5A3C / 2 / 2, 0);
    }
  }

  // A valid pair is the encoding of its value.
  lemma ValidIsEncoded(x: Fih)
    ensures Valid(x) <==> x == Encode(x.val)
  {
    hide Masked;
    MaskedTwice(x.msk);
    MaskedTwice(x.val);
  }

  // On valid pairs the comparisons never panic, agree with integer equality and are complements.
  lemma ComparisonsExact(x: Fih, y: Fih)
    requires Valid(x) && Valid(y)
    ensures Eq(x, y) == Ok(if x.val == y.val then FIH_TRUE else FIH_FALSE)
    ensures NotEq(x, y) == Ok(if x.val == y.val then FIH_FALSE else FIH_TRUE)
  {
    hide Masked;
    MaskedInjective(x.msk, y.msk);
  }

  // A pair with exactly one word changed stops every use of it.
  lemma OneWordChanged(x: Fih, t: Fih, y: Fih)
    requires Valid(x) && (t.val == x.val) != (t.msk == x.msk)
    ensures Decode(t) == Panic(Tampered)
    ensures Eq(t, y) == Eq(y, t) == Panic(Tampered)
    ensures NotEq(t, y) == NotEq(y, t) == Panic(Tampered)
  {
    hide Masked;
    MaskedInjective(x.msk, t.msk);
  }
}
