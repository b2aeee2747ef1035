/** The 32-bit status words of the mailbox queue as sets of slot numbers. */
module StatusWord {
  import opened MailboxTypes

  // A slot number as the uint8_t the C code uses.
  function Index(n: nat): (r: bv8)
    requires n < 32
    ensures r < 32
  {
    n as bv8
  }

  // 1UL << idx
  function Mask(n: nat): bv32
    requires n < 32
  {
    1 << Index(n)
  }

  function And(v: bv32, w: bv32): bv32 {
    v & w
  }

  // word &= ~status
  function Clear(word: bv32, status: bv32): bv32 {
    word & !status
  }

  // word |= status
  function Set(word: bv32, status: bv32): bv32 {
    word | status
  }

  // status & (1UL << idx)
  predicate Test(status: bv32, n: nat)
    requires n < 32
  {
    And(status, Mask(n)) != 0
  }

  function Members(w: bv32): set<SlotIdx> {
    set n: SlotIdx | n < 32 && Test(w, n)
  }

  // s is the set of slots 0 .. depth - 1.
  ghost predicate IsFirst(s: set<SlotIdx>, depth: nat) {
    forall n: SlotIdx {:trigger n in s} :: n in s <==> n < depth
  }

  // tfm_ns_mailbox_init: ((1 << (N - 1)) - 1) + (1 << (N - 1)), which never shifts by 32.
  function InitWord(depth: nat): bv32
    requires 1 <= depth <= 32
  {
    (Mask(depth - 1) - 1) + Mask(depth - 1)
  }

  // ---------- single bits ----------

  lemma TwoMasks(m: bv32, b: bv32, i: bv8, j: bv8)
    requires i < 32 && j < 32 && m == 1 << i && b == 1 << j
    ensures m & b == if i == j then b else 0
    ensures b != 0
  {
  }

  lemma OneBit(w: bv32, b: bv32, j: bv8)
    requires j < 32 && b == 1 << j
    ensures w & b == 0 || w & b == b
  {
  }

  lemma MinusBit(v: bv32, w: bv32, b: bv32, c: bv32, x: bv32, y: bv32, z: bv32)
    requires c == v & !w && x == w & b && y == v & b && z == c & b
    requires x == 0 || x == b
    ensures z == if x == 0 then y else 0
  {
  }

  lemma OrBit(v: bv32, w: bv32, b: bv32, c: bv32, x: bv32, y: bv32, z: bv32)
    requires c == v | w && x == w & b && y == v & b && z == c & b
    ensures z == y | x
  {
  }

  lemma SetZero(x: bv32, y: bv32)
    ensures Set(y, x) == 0 <==> y == 0 && x == 0
  {
  }

  lemma AndIs(v: bv32, w: bv32)
    ensures And(v, w) == v & w
  {
  }

  lemma ClearIs(v: bv32, w: bv32)
    ensures Clear(v, w) == v & !w
  {
  }

  lemma SetIs(v: bv32, w: bv32)
    ensures Set(v, w) == v | w
  {
  }

  lemma AndClear(v: bv32, w: bv32, b: bv32)
    requires And(w, b) == 0 || And(w, b) == b
    ensures And(Clear(v, w), b) == if And(w, b) == 0 then And(v, b) else 0
  {
    hide And, Clear;
    ClearIs(v, w);
    AndIs(w, b);
    AndIs(v, b);
    AndIs(Clear(v, w), b);
    MinusBit(v, w, b, Clear(v, w), And(w, b), And(v, b), And(Clear(v, w), b));
  }

  lemma AndOverSet(v: bv32, w: bv32, b: bv32)
    ensures And(Set(v, w), b) == Set(And(v, b), And(w, b))
  {
    hide And, Set;
    SetIs(v, w);
    SetIs(And(v, b), And(w, b));
    AndIs(w, b);
    AndIs(v, b);
    AndIs(Set(v, w), b);
    OrBit(v, w, b, Set(v, w), And(w, b), And(v, b), And(Set(v, w), b));
  }

  lemma AndSet(v: bv32, w: bv32, b: bv32)
    ensures And(Set(v, w), b) == 0 <==> And(v, b) == 0 && And(w, b) == 0
  {
    hide And, Set;
    AndOverSet(v, w, b);
    SetZero(And(w, b), And(v, b));
  }

  lemma LowMask(i: bv8, m: bv32, j: bv8, b: bv32)
    requires i < 32 && j < 32 && m == 1 << i && b == 1 << j
    ensures ((m - 1) + m) & b != 0 <==> j <= i
  {
  }

  lemma LowStep(w: bv32, i: bv8, low: bv32, high: bv32, m: bv32)
    requires 0 < i < 32 && m == 1 << i
    requires low == ((1 << (i - 1)) - 1) + (1 << (i - 1)) && high == (m - 1) + m
    requires w & low == 0 && w & m == 0
    ensures w & high == 0
  {
  }

  // ---------- slot numbers ----------

  lemma IndexValue(n: nat)
    requires n < 32
    ensures Index(n) as nat == n
  {
  }

  lemma IndexOrder(n: nat, k: nat)
    requires n < 32 && k < 32
    ensures Index(n) <= Index(k) <==> n <= k
    ensures Index(n) == Index(k) <==> n == k
  {
    IndexValue(n);
    IndexValue(k);
  }

  lemma IndexStep(n: nat)
    requires 0 < n < 32
    ensures 0 < Index(n) && Index(n - 1) == Index(n) - 1
  {
    IndexValue(n);
    IndexValue(n - 1);
    assert (Index(n) - 1) as nat == n - 1;
  }

  lemma OneMask(w: bv32, n: nat)
    requires n < 32
    ensures And(w, Mask(n)) == 0 || And(w, Mask(n)) == Mask(n)
  {
    hide Index;
    OneBit(w, Mask(n), Index(n));
  }

  lemma MasksMeet(n: nat, k: nat)
    requires n < 32 && k < 32
    ensures Test(Mask(n), k) <==> n == k
  {
    IndexOrder(n, k);
    hide Index;
    TwoMasks(Mask(n), Mask(k), Index(n), Index(k));
  }

  lemma InitTest(depth: nat, n: nat)
    requires 1 <= depth <= 32 && n < 32
    ensures Test(InitWord(depth), n) <==> n < depth
  {
    IndexOrder(n, depth - 1);
    hide Index;
    LowMask(Index(depth - 1), Mask(depth - 1), Index(n), Mask(n));
  }

  lemma LowWord(w: bv32, n: nat)
    requires 1 < n <= 32 && And(w, InitWord(n - 1)) == 0 && And(w, Mask(n - 1)) == 0
    ensures And(w, InitWord(n)) == 0
  {
    IndexStep(n - 1);
    hide Index;
    LowStep(w, Index(n - 1), InitWord(n - 1), InitWord(n), Mask(n - 1));
  }

  lemma LowBase(w: bv32)
    requires And(w, Mask(0)) == 0
    ensures And(w, InitWord(1)) == 0
  {
    assert Index(0) == 0;
  }

  // A word none of whose first n bits is set has no bit in common with the initial word for n.
  lemma {:induction false} LowZero(w: bv32, n: nat)
    requires 1 <= n <= 32 && forall k: nat | k < n :: !Test(w, k)
    ensures And(w, InitWord(n)) == 0
    decreases n
  {
    hide InitWord, Mask, Index, And;
    assert !Test(w, n - 1);
    if n > 1 {
      LowZero(w, n - 1);
      LowWord(w, n);
    } else {
      LowBase(w);
    }
  }

  lemma FullWord(w: bv32)
    requires And(w, InitWord(32)) == 0
    ensures w == 0
  {
    assert Index(31) == 31;
    assert InitWord(32) == 0xFFFF_FFFF;
  }

  // ---------- words as sets ----------

  lemma InitWordMembers(depth: nat)
    requires 1 <= depth <= 32
    ensures IsFirst(Members(InitWord(depth)), depth)
  {
    hide InitWord, Test;
    forall n: SlotIdx ensures n in Members(InitWord(depth)) <==> n < depth {
      if n < 32 {
        InitTest(depth, n);
      }
    }
  }

  lemma ZeroMembers(w: bv32)
    ensures w == 0 <==> Members(w) == {}
  {
    hide InitWord, Mask;
    if Members(w) == {} {
      forall k: nat | k < 32 ensures !Test(w, k) {
        assert k !in Members(w);
      }
      LowZero(w, 32);
      FullWord(w);
    } else {
      var n :| n in Members(w);
      assert Test(w, n);
    }
  }

  lemma Member(w: bv32, n: nat)
    requires n < 32
    ensures n in Members(w) <==> Test(w, n)
  {
  }

  lemma MaskMembers(n: nat)
    requires n < 32
    ensures Members(Mask(n)) == {n}
  {
    hide Mask, Test;
    forall k: nat ensures k in Members(Mask(n)) <==> k == n {
      if k < 32 {
        MasksMeet(n, k);
      }
    }
  }

  // Clearing and setting the bits of a word.
  lemma WordOps(v: bv32, w: bv32)
    ensures Members(Clear(v, w)) == Members(v) - Members(w)
    ensures Members(Set(v, w)) == Members(v) + Members(w)
  {
    hide Mask, And, Clear, Set;
    forall k: nat
      ensures k in Members(Clear(v, w)) <==> k in Members(v) - Members(w)
      ensures k in Members(Set(v, w)) <==> k in Members(v) + Members(w)
    {
      if k < 32 {
        OneMask(w, k);
        AndClear(v, w, Mask(k));
        AndSet(v, w, Mask(k));
      }
    }
  }

  // ---------- the slots of a queue ----------

  lemma {:induction false} FirstSize(s: set<SlotIdx>, depth: nat)
    requires IsFirst(s, depth)
    ensures |s| == depth
  {
    if depth == 0 {
      assert s == {};
    } else {
      FirstSize(s - {depth - 1}, depth - 1);
      assert |s - {depth - 1}| == |s| - 1;
    }
  }

  lemma FirstMember(all: set<nat>, n: nat, k: nat)
    requires IsFirst(all, n) && k in all
    ensures k < n
  {
  }

  // The scan of a status word for its lowest bit, when one below depth is set.
  method LowestBit(status: bv32, depth: nat, ghost k: nat) returns (idx: nat)
    requires depth <= 32 && k in Members(status) && k < depth
    ensures idx < depth && IsLowest(idx, Members(status))
  {
    hide Test, Members;
    idx := 0;
    while idx < depth
      invariant idx <= depth
      invariant forall j | j in Members(status) :: idx <= j
    {
      Member(status, idx);
      if Test(status, idx) {
        break;
      }
      idx := idx + 1;
    }
    Member(status, idx);
  }
}
