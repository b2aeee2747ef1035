/**
 Buffer sizes of authenticated encryption: what the size macros promise an implementation that
 processes a message in fragments and may hold output back until it has a whole block.
 */
module AeadSizes {
  import opened Words

  const PSA_MAX_BLOCK_CIPHER_BLOCK_SIZE: nat := 16

  // An algorithm identifier: 7 bits of category from bit 24, the block cipher flag at bit 22, six
  // bits of tag length from bit 16.
  type Alg = Word

  predicate IsAead(alg: Alg) {
    (alg / 0x100_0000) % 0x80 == 5
  }

  predicate IsAeadOnBlockCipher(alg: Alg) {
    IsAead(alg) && (alg / 0x40_0000) % 2 == 1
  }

  function TagLength(alg: Alg): nat {
    if IsAead(alg) then (alg / 0x1_0000) % 0x40 else 0
  }

  // PSA_ALG_AEAD_WITH_TAG_LENGTH: the six bits replaced.
  function WithTagLength(alg: Alg, tagLength: nat): Alg {
    alg / 0x40_0000 * 0x40_0000 + (tagLength % 0x40) * 0x1_0000 + alg % 0x1_0000
  }

  function RoundUp(block: nat, length: nat): nat
    requires block > 0
  {
    (length + block - 1) / block * block
  }

  function EncryptSize(alg: Alg, plaintext: nat): nat {
    if TagLength(alg) != 0 then plaintext + TagLength(alg) else 0
  }

  // The subtraction is on size_t: a ciphertext shorter than its tag wraps around.
  function DecryptSize(alg: Alg, ciphertext: nat): int {
    if TagLength(alg) != 0 then ciphertext - TagLength(alg) else 0
  }

  function UpdateSize(alg: Alg, input: nat): nat {
    if IsAeadOnBlockCipher(alg) then RoundUp(PSA_MAX_BLOCK_CIPHER_BLOCK_SIZE, input) else input
  }

  function FinishSize(alg: Alg): nat {
    if IsAeadOnBlockCipher(alg) then PSA_MAX_BLOCK_CIPHER_BLOCK_SIZE else 0
  }

  // Shortening the tag changes the tag length alone.
  lemma ShortenedTag(alg: Alg, tagLength: nat)
    requires tagLength < 0x40
    ensures IsAead(WithTagLength(alg, tagLength)) <==> IsAead(alg)
    ensures IsAeadOnBlockCipher(WithTagLength(alg, tagLength)) <==> IsAeadOnBlockCipher(alg)
    ensures IsAead(alg) ==> TagLength(WithTagLength(alg, tagLength)) == tagLength
  {
    var short := WithTagLength(alg, tagLength);
    assert short / 0x40_0000 == alg / 0x40_0000;
    assert alg / 0x100_0000 == alg / 0x40_0000 / 4;
    assert short / 0x100_0000 == short / 0x40_0000 / 4;
    assert short / 0x1_0000 == alg / 0x40_0000 * 0x40 + tagLength;
  }

  // The decrypt size undoes the encrypt size exactly when the algorithm has a tag, empty messages
  // aside.
  lemma DecryptUndoesEncrypt(alg: Alg, plaintext: nat)
    ensures DecryptSize(alg, EncryptSize(alg, plaintext)) == plaintext <==> TagLength(alg) != 0 || plaintext == 0
  {
  }

  // What an implementation holds back after taking in some more bytes, and what it puts out: modes
  // on a block cipher wait for a whole block, the others put everything out at once.
  function Held(alg: Alg, held: nat, input: nat): nat {
    if IsAeadOnBlockCipher(alg) then (held + input) % PSA_MAX_BLOCK_CIPHER_BLOCK_SIZE else 0
  }

  function Output(alg: Alg, held: nat, input: nat): int {
    held + input - Held(alg, held, input)
  }

  // The outputs of a run over the fragments, then of the call that finishes it.
  function Outputs(alg: Alg, held: nat, fragments: seq<nat>): seq<int>
    decreases fragments
  {
    if fragments == [] then [held]
    else [Output(alg, held, fragments[0])] + Outputs(alg, Held(alg, held, fragments[0]), fragments[1..])
  }

  function Sum(s: seq<int>): int {
    if s == [] then 0 else s[0] + Sum(s[1..])
  }

  predicate CanHold(alg: Alg, held: nat) {
    held < if IsAeadOnBlockCipher(alg) then PSA_MAX_BLOCK_CIPHER_BLOCK_SIZE else 1
  }

  // One update, from any amount held back: the output is made of whole blocks and fits its macro.
  lemma UpdateFits(alg: Alg, held: nat, input: nat)
    requires CanHold(alg, held)
    ensures 0 <= Output(alg, held, input) <= UpdateSize(alg, input)
    ensures CanHold(alg, Held(alg, held, input))
  {
    if IsAeadOnBlockCipher(alg) {
      var blocks, more := (held + input) / 16, (input + 15) / 16;
      assert held + input == 16 * blocks + (held + input) % 16;
      assert input + 15 == 16 * more + (input + 15) % 16;
      assert blocks <= more;
    }
  }

  // For any fragments, no update and no finish exceeds its buffer, and as many bytes come out as
  // went in.
  lemma {:induction false} StreamFits(alg: Alg, held: nat, fragments: seq<nat>)
    requires CanHold(alg, held)
    ensures |Outputs(alg, held, fragments)| == |fragments| + 1
    ensures forall i :: 0 <= i < |fragments| ==>
              0 <= Outputs(alg, held, fragments)[i] <= UpdateSize(alg, fragments[i])
    ensures 0 <= Outputs(alg, held, fragments)[|fragments|] <= FinishSize(alg)
    ensures Sum(Outputs(alg, held, fragments)) == held + Sum(fragments)
    decreases fragments
  {
    if fragments == [] {
      assert Outputs(alg, held, fragments)[1..] == [];
    } else {
      UpdateFits(alg, held, fragments[0]);
      StreamFits(alg, Held(alg, held, fragments[0]), fragments[1..]);
      var outputs := Outputs(alg, held, fragments);
      assert outputs[1..] == Outputs(alg, Held(alg, held, fragments[0]), fragments[1..]);
    }
  }

  // The update macro is tight: for every input length some amount held back makes the output as
  // long as the macro says.
  lemma UpdateTight(alg: Alg, input: nat) returns (held: nat)
    ensures CanHold(alg, held) && Output(alg, held, input) == UpdateSize(alg, input)
  {
    if IsAeadOnBlockCipher(alg) {
      var blocks := (input + 15) / 16;
      assert input + 15 == 16 * blocks + (input + 15) % 16;
      held := 16 * blocks - input;
    } else {
      held := 0;
    }
  }

  // The finish macro is not, by one byte: a whole block is never held back.
  lemma FinishNotTight(alg: Alg, held: nat, fragments: seq<nat>)
    requires CanHold(alg, held) && IsAeadOnBlockCipher(alg)
    ensures |Outputs(alg, held, fragments)| == |fragments| + 1
    ensures Outputs(alg, held, fragments)[|fragments|] < FinishSize(alg)
    decreases fragments
  {
    if fragments != [] {
      UpdateFits(alg, held, fragments[0]);
      FinishNotTight(alg, Held(alg, held, fragments[0]), fragments[1..]);
    }
  }

  // For modes on a block cipher one byte more than any last output; for the others exactly it.
  lemma FinishReached(alg: Alg)
    ensures Outputs(alg, 0, [15])[1] == if IsAeadOnBlockCipher(alg) then FinishSize(alg) - 1 else FinishSize(alg)
  {
    assert [15][1..] == [];
    assert Outputs(alg, Held(alg, 0, 15), []) == [Held(alg, 0, 15)];
  }

  // An identifier from its fields: a top bit, 7 bits of category, a bit, the block cipher flag, six bits
  // of tag length and sixteen more.
  function FromFields(top: nat, category: nat, high: nat, block: nat, tag: nat, low: nat): Alg
    requires top < 2 && category < 0x80 && high < 2 && block < 2 && tag < 0x40 && low < 0x1_0000
  {
    top * 0x8000_0000 + category * 0x100_0000 + high * 0x80_0000 + block * 0x40_0000 + tag * 0x1_0000 + low
  }

  // The classification and the tag length read exactly their fields, whatever the others are.
  lemma FieldsRead(top: nat, category: nat, high: nat, block: nat, tag: nat, low: nat, length: nat)
    requires top < 2 && category < 0x80 && high < 2 && block < 2 && tag < 0x40 && low < 0x1_0000
    ensures var alg := FromFields(top, category, high, block, tag, low);
            && (IsAead(alg) <==> category == 5)
            && (IsAeadOnBlockCipher(alg) <==> category == 5 && block == 1)
            && TagLength(alg) == (if category == 5 then tag else 0)
            && EncryptSize(alg, length) == (if category == 5 && tag != 0 then length + tag else 0)
  {
    var alg := FromFields(top, category, high, block, tag, low);
    assert alg / 0x1_0000 == top * 0x8000 + category * 0x100 + high * 0x80 + block * 0x40 + tag;
    assert alg / 0x40_0000 == top * 0x200 + category * 4 + high * 2 + block;
    assert alg / 0x100_0000 == top * 0x80 + category;
  }

  // The identifiers the header defines: CCM and GCM are AEAD on a block cipher, ChaCha20-Poly1305 is
  // AEAD and not on one, all with tags of 16 bytes; CBC and the HMAC base are not AEAD.
  lemma KnownAlgorithms()
    ensures IsAeadOnBlockCipher(0x0550_0100) && TagLength(0x0550_0100) == 16
    ensures IsAeadOnBlockCipher(0x0550_0200) && TagLength(0x0550_0200) == 16
    ensures IsAead(0x0510_0500) && !IsAeadOnBlockCipher(0x0510_0500) && TagLength(0x0510_0500) == 16
    ensures !IsAead(0x0440_4000) && !IsAead(0x0380_0000)
  {
  }
}
