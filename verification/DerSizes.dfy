/**
 The claimed sizes of exported RSA and DSA keys against their actual DER encodings (sections 8.1.3
 and 8.3 of ITU-T X.690; appendices A.1.1 and A.1.2 of RFC 8017).
 */
module DerSizes {
  import opened Powers

  type Byte = b: int | 0 <= b < 256
  type Bytes = seq<Byte>

  const PSA_MAX_KEY_BITS: nat := 0xfff8

  // The bit length of a number.
  function Bits(x: nat): nat {
    if x == 0 then 0 else 1 + Bits(x / 2)
  }

  // ---------------------------------------------------------------- the size macros

  function Asn1IntegerMaxSize(bits: nat): nat {
    bits / 8 + 5
  }

  function RsaPublicKeyMaxSize(keyBits: nat): nat {
    Asn1IntegerMaxSize(keyBits) + 11
  }

  function RsaKeyPairMaxSize(keyBits: nat): nat {
    9 * Asn1IntegerMaxSize(keyBits / 2 + 1) + 14
  }

  function DsaPublicKeyMaxSize(keyBits: nat): nat {
    Asn1IntegerMaxSize(keyBits) * 3 + 59
  }

  function DsaKeyPairMaxSize(keyBits: nat): nat {
    Asn1IntegerMaxSize(keyBits) * 3 + 75
  }

  // ---------------------------------------------------------------- the encoding

  function BigEndian(n: nat): (r: Bytes)
    ensures n > 0 ==> r != []
  {
    if n == 0 then [] else BigEndian(n / 256) + [n % 256]
  }

  function Value(s: Bytes): nat {
    if s == [] then 0 else 256 * Value(s[..|s| - 1]) + s[|s| - 1]
  }

  // Length octets of the definite form: one octet below 128, else a count and that many octets.
  function Length(n: nat): Bytes
    requires n < 0x1_0000_0000
  {
    if n < 128 then [n] else
      BigEndianLength(n);
      [0x80 + |BigEndian(n)|] + BigEndian(n)
  }

  lemma BigEndianLength(n: nat)
    requires n < 0x1_0000_0000
    ensures |BigEndian(n)| == if n == 0 then 0 else if n < 256 then 1 else if n < 0x1_0000 then 2
                              else if n < 0x100_0000 then 3 else 4
  {
    if n > 0 {
      assert BigEndian(n) == BigEndian(n / 256) + [n % 256];
      assert n >= 256 ==> BigEndian(n / 256) == BigEndian(n / 256 / 256) + [n / 256 % 256];
      assert n >= 0x1_0000 ==> BigEndian(n / 256 / 256) == BigEndian(n / 256 / 256 / 256) + [n / 256 / 256 % 256];
      assert n / 256 / 256 / 256 / 256 == 0;
    }
  }

  lemma {:induction false} BigEndianValue(n: nat)
    ensures Value(BigEndian(n)) == n
    ensures n > 0 ==> BigEndian(n) != [] && BigEndian(n)[0] != 0
  {
    if n > 0 {
      BigEndianValue(n / 256);
      var s := BigEndian(n);
      assert s[..|s| - 1] == BigEndian(n / 256);
    }
  }

  // The length octets say how many there are, read back as the length, and could not be fewer.
  lemma LengthIsDer(n: nat)
    requires n < 0x1_0000_0000
    ensures n < 128 ==> Length(n) == [n]
    ensures n >= 128 ==> |Length(n)| > 1 && Length(n)[0] == 0x80 + |Length(n)| - 1
                         && Length(n)[1] != 0 && Value(Length(n)[1..]) == n
  {
    if n >= 128 {
      BigEndianLength(n);
      BigEndianValue(n);
      assert Length(n)[1..] == BigEndian(n);
    }
  }

  function Tagged(tag: Byte, content: Bytes): Bytes
    requires |content| < 0x1_0000_0000
  {
    [tag] + Length(|content|) + content
  }

  // Two's complement octets of a non-negative number, as few as there can be.
  function Content(x: nat): Bytes {
    if x < 128 then [x] else Content(x / 256) + [x % 256]
  }

  // The content reads back as the number, the first octet says it is not negative, and no first
  // octet could be left out.
  lemma {:induction false} ContentIsDer(x: nat)
    ensures Value(Content(x)) == x
    ensures Content(x) != [] && Content(x)[0] < 128
    ensures |Content(x)| > 1 ==> (Content(x)[0] != 0 || Content(x)[1] >= 128)
  {
    if x < 128 {
      assert Content(x)[..0] == [];
    } else {
      ContentIsDer(x / 256);
      var s := Content(x);
      assert s[..|s| - 1] == Content(x / 256);
    }
  }

  lemma EightBitsLess(x: nat)
    requires x >= 128
    ensures Bits(x / 256) + 8 == if x < 256 then 8 else Bits(x)
    ensures x < 256 ==> Bits(x) == 8
  {
    var y := x / 128;
    assert x / 2 / 2 / 2 / 2 / 2 / 2 / 2 == y;
    assert Bits(x) == 1 + Bits(x / 2) == 2 + Bits(x / 2 / 2) == 3 + Bits(x / 2 / 2 / 2);
    assert Bits(x / 2 / 2 / 2) == 1 + Bits(x / 2 / 2 / 2 / 2) == 2 + Bits(x / 2 / 2 / 2 / 2 / 2);
    assert Bits(x / 2 / 2 / 2 / 2 / 2) == 1 + Bits(x / 2 / 2 / 2 / 2 / 2 / 2) == 2 + Bits(y);
    assert Bits(y) == 1 + Bits(y / 2);
    assert y / 2 == x / 256;
  }

  lemma {:induction false} ContentLength(x: nat)
    ensures |Content(x)| == Bits(x) / 8 + 1
  {
    if x < 128 {
      BitsBelow(x, 7);
    } else {
      EightBitsLess(x);
      ContentLength(x / 256);
    }
  }

  lemma {:induction false} BitsBelow(x: nat, k: nat)
    ensures x < Pow2(k) <==> Bits(x) <= k
  {
    if k > 0 && x > 0 {
      BitsBelow(x / 2, k - 1);
    }
  }

  // Sizes below 2^32 octets, all that the length octets here write.
  predicate Small(x: nat) {
    Bits(x) < 0x1000_0000
  }

  function Integer(x: nat): Bytes
    requires Small(x)
  {
    ContentLength(x);
    Tagged(2, Content(x))
  }

  // The length of an encoding with this much content.
  function Wrapped(content: nat): nat {
    content + (if content < 128 then 2 else if content < 0x100 then 3 else if content < 0x1_0000 then 4
               else if content < 0x100_0000 then 5 else 6)
  }

  lemma TaggedLength(tag: Byte, content: Bytes)
    requires |content| < 0x1_0000_0000
    ensures |Tagged(tag, content)| == Wrapped(|content|)
  {
    BigEndianLength(|content|);
  }

  function Octets(bits: nat): nat {
    bits / 8 + 1
  }

  lemma IntegerLength(x: nat)
    requires Small(x)
    ensures |Integer(x)| == Wrapped(Octets(Bits(x)))
  {
    hide Wrapped, Tagged, Content;
    ContentLength(x);
    TaggedLength(2, Content(x));
  }

  // The claimed bound holds for every number of a bit length exactly up to 2^19 - 9.
  lemma IntegerBoundExactly(x: nat)
    requires Small(x)
    ensures |Integer(x)| <= Asn1IntegerMaxSize(Bits(x)) <==> Bits(x) <= 0x8_0000 - 9
  {
    hide Integer, Bits;
    IntegerLength(x);
  }

  lemma IntegerBound(x: nat, bits: nat)
    requires Bits(x) <= bits <= 0x8_0000 - 9
    ensures Small(x) && |Integer(x)| <= Asn1IntegerMaxSize(bits)
  {
    hide Integer, Bits;
    IntegerLength(x);
  }

  // ---------------------------------------------------------------- RSA

  function RsaPublicKey(n: nat, e: nat): Bytes
    requires Small(n) && Small(e)
  {
    IntegerLength(n);
    IntegerLength(e);
    Tagged(0x30, Integer(n) + Integer(e))
  }

  lemma ExponentBits(e: nat)
    requires e < 0x1_0000_0000
    ensures Bits(e) <= 32
  {
    hide Bits, Pow2;
    BitsBelow(e, 32);
    Pow32();
  }

  // The public key macro bounds the encoding of every modulus of at most the largest key size.
  lemma RsaPublicKeyFits(n: nat, e: nat, keyBits: nat)
    requires Bits(n) <= keyBits <= PSA_MAX_KEY_BITS && e < 0x1_0000_0000
    ensures Small(n) && Small(e)
    ensures |RsaPublicKey(n, e)| <= RsaPublicKeyMaxSize(keyBits)
  {
    hide Integer, Bits, Tagged;
    ExponentBits(e);
    IntegerBound(n, keyBits);
    IntegerLength(e);
    TaggedLength(0x30, Integer(n) + Integer(e));
  }

  datatype RsaKeyPair = RsaKeyPair(n: nat, e: nat, d: nat, p: nat, q: nat, dp: nat, dq: nat, qinv: nat)

  predicate SmallPair(k: RsaKeyPair) {
    && Small(k.n) && Small(k.e) && Small(k.d) && Small(k.p) && Small(k.q)
    && Small(k.dp) && Small(k.dq) && Small(k.qinv)
  }

  function RsaFields(k: RsaKeyPair): Bytes
    requires SmallPair(k)
  {
    Integer(0) + Integer(k.n) + Integer(k.e) + Integer(k.d) + Integer(k.p) + Integer(k.q)
    + Integer(k.dp) + Integer(k.dq) + Integer(k.qinv)
  }

  // What the macro's comment assumes of a key pair, and what an RSA key pair is besides.
  predicate IsRsaKeyPair(k: RsaKeyPair) {
    && k.n == k.p * k.q && k.p > 1 && k.q > 1
    && k.e < 0x1_0000_0000 && k.d < k.n
    && k.dp < k.p && k.dq < k.q && k.qinv < k.p
    && -1 <= Bits(k.p) - Bits(k.q) <= 1
  }

  lemma {:induction false} BitsMonotone(x: nat, y: nat)
    requires x <= y
    ensures Bits(x) <= Bits(y)
  {
    if x > 0 {
      BitsMonotone(x / 2, y / 2);
    }
  }

  lemma HalvedProduct(h: nat, r: nat, q: nat)
    ensures (2 * h + r) * q == 2 * (h * q) + r * q && r * q >= 0
    ensures h > 0 && q > 0 ==> h * q > 0
  {
  }

  lemma BitsDouble(x: nat)
    requires x > 0
    ensures Bits(2 * x) == 1 + Bits(x)
  {
  }

  // A product has at least as many bits as its factors together, less one.
  lemma {:induction false} ProductBits(p: nat, q: nat)
    requires p > 0 && q > 0
    ensures p * q > 0 && Bits(p * q) >= Bits(p) + Bits(q) - 1
  {
    if p == 1 {
      assert p * q == q;
    } else {
      var h := p / 2;
      HalvedProduct(h, p % 2, q);
      ProductBits(h, q);
      assert Bits(p) == 1 + Bits(h);
      hide Bits;
      BitsDouble(h * q);
      var less, all := 2 * (h * q), p * q;
      assert less <= all;
      BitsMonotone(less, all);
    }
  }

  lemma RsaPrimeBits(k: RsaKeyPair)
    requires IsRsaKeyPair(k)
    ensures Bits(k.p) <= Bits(k.n) / 2 + 1 && Bits(k.q) <= Bits(k.n) / 2 + 1
    ensures Bits(k.d) <= Bits(k.n) && Bits(k.dp) <= Bits(k.p)
    ensures Bits(k.dq) <= Bits(k.q) && Bits(k.qinv) <= Bits(k.p)
  {
    hide Bits;
    ProductBits(k.p, k.q);
    BitsMonotone(k.d, k.n);
    BitsMonotone(k.dp, k.p);
    BitsMonotone(k.dq, k.q);
    BitsMonotone(k.qinv, k.p);
  }

  // The key pair macro bounds the encoding of every such pair of at most the largest key size.
  lemma RsaKeyPairFits(k: RsaKeyPair)
    requires IsRsaKeyPair(k) && Bits(k.n) <= PSA_MAX_KEY_BITS
    ensures SmallPair(k) && |RsaFields(k)| < 0x1_0000
    ensures |Tagged(0x30, RsaFields(k))| <= RsaKeyPairMaxSize(Bits(k.n))
  {
    hide Integer, Tagged, IsRsaKeyPair, Bits;
    RsaPrimeBits(k);
    assert k.e < 0x1_0000_0000 by {
      RsaExponent(k);
    }
    ExponentBits(k.e);
    var half := Bits(k.n) / 2 + 1;
    IntegerBound(k.n, Bits(k.n));
    IntegerBound(k.d, Bits(k.n));
    IntegerBound(k.p, half);
    IntegerBound(k.q, half);
    IntegerBound(k.dp, half);
    IntegerBound(k.dq, half);
    IntegerBound(k.qinv, half);
    IntegerLength(k.e);
    ZeroLength();
    assert SmallPair(k);
    TaggedLength(0x30, RsaFields(k));
  }

  lemma RsaExponent(k: RsaKeyPair)
    requires IsRsaKeyPair(k)
    ensures k.e < 0x1_0000_0000
  {
  }

  lemma ZeroLength()
    ensures Small(0) && |Integer(0)| == 3
  {
    IntegerLength(0);
  }

  // The public key macro is tight: no smaller one bounds a modulus of full length, from 2040 bits on,
  // with an exponent of 32 bits.
  lemma RsaPublicKeyTight(n: nat, e: nat)
    requires 2040 <= Bits(n) <= PSA_MAX_KEY_BITS && Bits(e) == 32
    ensures Small(n) && Small(e)
    ensures |RsaPublicKey(n, e)| == RsaPublicKeyMaxSize(Bits(n))
  {
    hide Integer, Bits, Tagged;
    IntegerBound(n, PSA_MAX_KEY_BITS);
    IntegerBound(e, 32);
    IntegerLength(n);
    IntegerLength(e);
    TaggedLength(0x30, Integer(n) + Integer(e));
  }

  // The key pair macro allows ten octets more than the encoding of full-length members, for the usual
  // key sizes: that is what its overapproximation costs.
  lemma RsaKeyPairSlack(k: RsaKeyPair, keyBits: nat)
    requires keyBits % 16 == 0 && 4096 <= keyBits <= PSA_MAX_KEY_BITS
    requires Bits(k.n) == Bits(k.d) == keyBits && Bits(k.e) == 32
    requires Bits(k.p) == Bits(k.q) == Bits(k.dp) == Bits(k.dq) == Bits(k.qinv) == keyBits / 2
    ensures SmallPair(k) && |RsaFields(k)| < 0x1_0000
    ensures |Tagged(0x30, RsaFields(k))| + 10 == RsaKeyPairMaxSize(keyBits)
  {
    hide Integer, Bits, Tagged;
    IntegerLength(k.n);
    IntegerLength(k.e);
    IntegerLength(k.d);
    IntegerLength(k.p);
    IntegerLength(k.q);
    IntegerLength(k.dp);
    IntegerLength(k.dq);
    IntegerLength(k.qinv);
    ZeroLength();
    SlackArithmetic(keyBits);
    hide Wrapped, Octets;
    TaggedLength(0x30, RsaFields(k));
  }

  lemma SlackArithmetic(keyBits: nat)
    requires keyBits % 16 == 0 && 4096 <= keyBits <= PSA_MAX_KEY_BITS
    ensures var full, half := Wrapped(Octets(keyBits)), Wrapped(Octets(keyBits / 2));
            var fields := 3 + 2 * full + 5 * half + Wrapped(Octets(32));
            fields < 0x1_0000 && Wrapped(fields) + 10 == RsaKeyPairMaxSize(keyBits)
  {
    var q := keyBits / 16;
    assert keyBits == 16 * q && keyBits / 2 == 8 * q && keyBits / 8 == 2 * q;
    assert (keyBits / 2) / 8 == q && (keyBits / 2 + 1) / 8 == q;
  }

  // ---------------------------------------------------------------- DSA

  const DSA_OID: Bytes := [6, 7, 0x2A, 0x86, 0x48, 0xCE, 0x38, 0x04, 0x01]

  // A BIT STRING of whole octets: the count of unused bits, then the octets.
  function BitString(content: Bytes): Bytes
    requires |content| < 0x1_0000
  {
    Tagged(3, [0] + content)
  }

  lemma IntegerUnder(x: nat)
    requires Bits(x) <= PSA_MAX_KEY_BITS
    ensures Small(x) && |Integer(x)| <= 8196
  {
    IntegerBound(x, PSA_MAX_KEY_BITS);
  }

  predicate KeySized(x: nat) {
    Bits(x) <= PSA_MAX_KEY_BITS
  }

  // SubjectPublicKeyInfo of a DSA public key.
  function DsaPublicKey(p: nat, q: nat, g: nat, y: nat): Bytes
    requires KeySized(p) && KeySized(q) && KeySized(g) && KeySized(y)
  {
    IntegerUnder(p);
    IntegerUnder(q);
    IntegerUnder(g);
    IntegerUnder(y);
    TaggedLength(0x30, Integer(p) + Integer(q) + Integer(g));
    TaggedLength(0x30, DSA_OID + Tagged(0x30, Integer(p) + Integer(q) + Integer(g)));
    TaggedLength(3, [0] + Integer(y));
    Tagged(0x30, Tagged(0x30, DSA_OID + Tagged(0x30, Integer(p) + Integer(q) + Integer(g))) + BitString(Integer(y)))
  }

  function DsaKeyPair(p: nat, q: nat, g: nat, y: nat, x: nat): Bytes
    requires KeySized(p) && KeySized(q) && KeySized(g) && KeySized(y) && KeySized(x)
  {
    IntegerUnder(0);
    IntegerUnder(p);
    IntegerUnder(q);
    IntegerUnder(g);
    IntegerUnder(y);
    IntegerUnder(x);
    Tagged(0x30, Integer(0) + Integer(p) + Integer(q) + Integer(g) + Integer(y) + Integer(x))
  }

  function DsaPublicLength(p: nat, q: nat, g: nat, y: nat): nat {
    Wrapped(Wrapped(9 + Wrapped(p + q + g)) + Wrapped(1 + y))
  }

  function DsaPairLength(p: nat, q: nat, g: nat, y: nat, x: nat): nat {
    Wrapped(3 + p + q + g + y + x)
  }

  lemma DsaLengths(p: nat, q: nat, g: nat, y: nat, x: nat)
    requires KeySized(p) && KeySized(q) && KeySized(g) && KeySized(y) && KeySized(x)
    ensures Small(p) && Small(q) && Small(g) && Small(y) && Small(x)
    ensures |DsaPublicKey(p, q, g, y)| ==
            DsaPublicLength(|Integer(p)|, |Integer(q)|, |Integer(g)|, |Integer(y)|)
    ensures |DsaKeyPair(p, q, g, y, x)| ==
            DsaPairLength(|Integer(p)|, |Integer(q)|, |Integer(g)|, |Integer(y)|, |Integer(x)|)
  {
    hide Tagged, Integer, Bits, Wrapped;
    IntegerUnder(p);
    IntegerUnder(q);
    IntegerUnder(g);
    IntegerUnder(y);
    IntegerUnder(x);
    ZeroLength();
    var parms := Integer(p) + Integer(q) + Integer(g);
    WrappedBelow(|parms|);
    TaggedLength(0x30, parms);
    WrappedBelow(9 + |Tagged(0x30, parms)|);
    TaggedLength(0x30, DSA_OID + Tagged(0x30, parms));
    WrappedBelow(1 + |Integer(y)|);
    TaggedLength(3, [0] + Integer(y));
    TaggedLength(0x30, Tagged(0x30, DSA_OID + Tagged(0x30, parms)) + BitString(Integer(y)));
    TaggedLength(0x30, Integer(0) + Integer(p) + Integer(q) + Integer(g) + Integer(y) + Integer(x));
  }

  lemma WrappedBelow(n: nat)
    ensures n <= Wrapped(n) <= n + 6
  {
  }

  // The arithmetic of the public key: integers of these content sizes, q of at most 256 bits.
  lemma DsaPublicArithmetic(p: nat, q: nat, g: nat, y: nat)
    requires p <= 8192 && g <= p && y <= p && 0 < q <= 33
    ensures p <= 255 || q <= 31 ==>
              DsaPublicLength(Wrapped(p), Wrapped(q), Wrapped(g), Wrapped(y)) <= 3 * (p + 4) + 59
    ensures g == y == p >= 256 && q > 31 ==>
              DsaPublicLength(Wrapped(p), Wrapped(q), Wrapped(g), Wrapped(y)) > 3 * (p + 4) + 59
  {
  }

  lemma DsaOctets(p: nat, q: nat)
    requires p <= PSA_MAX_KEY_BITS && q <= 256
    ensures Octets(p) <= 8192 && 0 < Octets(q) <= 33
    ensures Octets(p) <= 255 <==> p < 2040
    ensures Octets(q) <= 31 <==> q <= 247
    ensures Octets(q) <= 32 <==> q <= 255
    ensures DsaPublicKeyMaxSize(p) == 3 * (Octets(p) + 4) + 59
    ensures DsaKeyPairMaxSize(p) == 3 * (Octets(p) + 4) + 75
  {
  }

  lemma OctetsMonotone(a: nat, b: nat)
    requires a <= b
    ensures 0 < Octets(a) <= Octets(b)
  {
  }

  // The public key macro counts 34 octets for q, which can be 35, and 4 for the BIT STRING, which
  // can be 5. That matters once p, g and y take four octets of overhead each: below 2040 bits, or
  // for a q of at most 247 bits, the macro is a bound; for keys whose g and y are as long as p it
  // is one only then.
  lemma DsaPublicKeyFits(p: nat, q: nat, g: nat, y: nat)
    requires KeySized(p) && Bits(q) <= 256 && Bits(g) <= Bits(p) && Bits(y) <= Bits(p)
    ensures Bits(p) < 2040 || Bits(q) <= 247 ==> |DsaPublicKey(p, q, g, y)| <= DsaPublicKeyMaxSize(Bits(p))
    ensures Bits(g) == Bits(y) == Bits(p) ==>
              (|DsaPublicKey(p, q, g, y)| <= DsaPublicKeyMaxSize(Bits(p)) <==> Bits(p) < 2040 || Bits(q) <= 247)
  {
    hide Integer, Bits, Octets, Wrapped, DsaPublicKey, DsaPublicLength, DsaPublicKeyMaxSize, DsaKeyPair;
    DsaLengths(p, q, g, y, q);
    IntegerLength(p);
    IntegerLength(q);
    IntegerLength(g);
    IntegerLength(y);
    DsaOctets(Bits(p), Bits(q));
    OctetsMonotone(Bits(g), Bits(p));
    OctetsMonotone(Bits(y), Bits(p));
    DsaPublicArithmetic(Octets(Bits(p)), Octets(Bits(q)), Octets(Bits(g)), Octets(Bits(y)));
  }

  lemma DsaPairArithmetic(p: nat, q: nat, g: nat, y: nat, x: nat)
    requires p <= 8192 && g <= p && y <= p && 0 < x <= q <= 33
    ensures p <= 255 || q <= 32 ==>
              DsaPairLength(Wrapped(p), Wrapped(q), Wrapped(g), Wrapped(y), Wrapped(x)) <= 3 * (p + 4) + 75
    ensures g == y == p >= 256 && x == q > 32 ==>
              DsaPairLength(Wrapped(p), Wrapped(q), Wrapped(g), Wrapped(y), Wrapped(x)) > 3 * (p + 4) + 75
  {
  }

  // The key pair macro counts 34 octets for q and for x as well; it is a bound below 2040 bits or
  // for a q of at most 255 bits, and for keys with full-size members only then.
  lemma DsaKeyPairFits(p: nat, q: nat, g: nat, y: nat, x: nat)
    requires KeySized(p) && Bits(q) <= 256 && Bits(g) <= Bits(p) && Bits(y) <= Bits(p) && Bits(x) <= Bits(q)
    ensures Bits(p) < 2040 || Bits(q) <= 255 ==> |DsaKeyPair(p, q, g, y, x)| <= DsaKeyPairMaxSize(Bits(p))
    ensures Bits(g) == Bits(y) == Bits(p) && Bits(x) == Bits(q) ==>
              (|DsaKeyPair(p, q, g, y, x)| <= DsaKeyPairMaxSize(Bits(p)) <==> Bits(p) < 2040 || Bits(q) <= 255)
  {
    hide Integer, Bits, Octets, Wrapped, DsaKeyPair, DsaPublicKey, DsaPublicLength, DsaPairLength,
         DsaKeyPairMaxSize;
    DsaLengths(p, q, g, y, x);
    IntegerLength(p);
    IntegerLength(q);
    IntegerLength(g);
    IntegerLength(y);
    IntegerLength(x);
    DsaOctets(Bits(p), Bits(q));
    OctetsMonotone(Bits(g), Bits(p));
    OctetsMonotone(Bits(y), Bits(p));
    OctetsMonotone(Bits(x), Bits(q));
    DsaPairArithmetic(Octets(Bits(p)), Octets(Bits(q)), Octets(Bits(g)), Octets(Bits(y)), Octets(Bits(x)));
  }

  // A 2048-bit key whose q has 256 bits: 844 and 860 octets, where the macros say 842 and 858.
  lemma DsaMacrosTooSmall()
    ensures Bits(Pow2(2047)) == 2048 && Bits(Pow2(255)) == 256
    ensures var p, q := Pow2(2047), Pow2(255);
            && |DsaPublicKey(p, q, p, p)| == 844 && DsaPublicKeyMaxSize(2048) == 842
            && |DsaKeyPair(p, q, p, p, q)| == 860 && DsaKeyPairMaxSize(2048) == 858
  {
    hide Tagged, Integer, Bits, DsaKeyPair, DsaPublicKey, Pow2;
    BitsOfPow2(2047);
    BitsOfPow2(255);
    var p, q := Pow2(2047), Pow2(255);
    DsaLengths(p, q, p, p, q);
    IntegerLength(p);
    IntegerLength(q);
  }

  lemma {:induction false} BitsOfPow2(k: nat)
    ensures Bits(Pow2(k)) == k + 1
  {
    if k > 0 {
      BitsOfPow2(k - 1);
      hide Bits;
      BitsDouble(Pow2(k - 1));
    } else {
      assert Pow2(0) == 1;
    }
  }
}
