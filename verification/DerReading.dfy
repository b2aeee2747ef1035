/**
 Reading DER octets back: the encodings whose sizes DerSizes measures are the ones their ASN.1
 definitions call for.
 */
module DerReading {
  import opened Wrappers
  import opened DerSizes

  // One element: its tag, its content octets, and what follows it.
  datatype Element = Element(tag: Byte, content: Bytes, rest: Bytes)

  // Length octets: below 128 the length itself, else the count of octets that hold it.
  function ReadLength(s: Bytes): (r: Option<(nat, Bytes)>)
    ensures r.Some? ==> |r.value.1| < |s|
  {
    if s == [] then None
    else if s[0] < 128 then Some((s[0], s[1..]))
    else if s[0] == 128 || |s| < s[0] - 127 then None
    else Some((Value(s[1..s[0] - 127]), s[s[0] - 127..]))
  }

  function ReadElement(s: Bytes): (r: Option<Element>)
    ensures r.Some? ==> |r.value.rest| < |s|
  {
    if s == [] then None
    else
      match ReadLength(s[1..])
      case None => None
      case Some((n, after)) => if n > |after| then None else Some(Element(s[0], after[..n], after[n..]))
  }

  // A row of INTEGERs (tag 2), none of them negative.
  function ReadIntegers(s: Bytes): Option<seq<nat>>
    decreases |s|
  {
    if s == [] then Some([])
    else
      match ReadElement(s)
      case None => None
      case Some(e) =>
        if e.tag != 2 || e.content == [] || e.content[0] >= 128 then None
        else
          match ReadIntegers(e.rest)
          case None => None
          case Some(xs) => Some([Value(e.content)] + xs)
  }

  lemma LengthReads(n: nat, rest: Bytes)
    requires n < 0x1_0000_0000
    ensures ReadLength(Length(n) + rest) == Some((n, rest))
  {
    LengthIsDer(n);
    var s := Length(n) + rest;
    if n >= 128 {
      BigEndianLength(n);
      assert s[1..|Length(n)|] == Length(n)[1..];
      assert s[|Length(n)|..] == rest;
    } else {
      assert s[1..] == rest;
    }
  }

  lemma TaggedReads(tag: Byte, content: Bytes, rest: Bytes)
    requires |content| < 0x1_0000_0000
    ensures ReadElement(Tagged(tag, content) + rest) == Some(Element(tag, content, rest))
  {
    var s := Tagged(tag, content) + rest;
    assert s[1..] == Length(|content|) + (content + rest);
    LengthReads(|content|, content + rest);
    assert (content + rest)[..|content|] == content && (content + rest)[|content|..] == rest;
  }

  lemma ElementLonger(s: Bytes, more: Bytes)
    requires ReadElement(s).Some?
    ensures ReadElement(s + more) == Some(ReadElement(s).value.(rest := ReadElement(s).value.rest + more))
  {
    var tail := s[1..];
    assert (s + more)[1..] == tail + more;
    var (n, after) := ReadLength(tail).value;
    assert ReadLength(tail + more) == Some((n, after + more)) by {
      LengthLonger(tail, more);
    }
    assert (after + more)[..n] == after[..n] && (after + more)[n..] == after[n..] + more;
  }

  lemma LengthLonger(s: Bytes, more: Bytes)
    requires ReadLength(s).Some?
    ensures ReadLength(s + more) == Some((ReadLength(s).value.0, ReadLength(s).value.1 + more))
  {
    var t := s + more;
    if s[0] < 128 {
      assert t[1..] == s[1..] + more;
    } else {
      assert t[1..s[0] - 127] == s[1..s[0] - 127] && t[s[0] - 127..] == s[s[0] - 127..] + more;
    }
  }

  lemma OneInteger(x: nat)
    requires Small(x)
    ensures ReadIntegers(Integer(x)) == Some([x])
  {
    ContentLength(x);
    ContentIsDer(x);
    assert Integer(x) + [] == Integer(x);
    TaggedReads(2, Content(x), []);
    assert ReadIntegers([]) == Some([]) && [x] + [] == [x];
    hide Value, Content;
    var e := ReadElement(Integer(x)).value;
    assert e.tag == 2 && e.content == Content(x) && e.rest == [];
  }

  lemma AndThen(s: Bytes, xs: seq<nat>, x: nat, all: seq<nat>)
    requires ReadIntegers(s) == Some(xs) && Small(x) && all == xs + [x]
    ensures ReadIntegers(s + Integer(x)) == Some(all)
  {
    hide ReadIntegers, Integer, Small;
    OneMore(s, xs, x);
  }

  // One more INTEGER at the end is one more number read.
  lemma {:induction false} OneMore(s: Bytes, xs: seq<nat>, x: nat)
    requires ReadIntegers(s) == Some(xs) && Small(x)
    ensures ReadIntegers(s + Integer(x)) == Some(xs + [x])
    decreases |s|
  {
    hide Integer, ReadElement;
    if s == [] {
      assert s + Integer(x) == Integer(x) && xs + [x] == [x];
      OneInteger(x);
    } else {
      var e := ReadElement(s).value;
      ElementLonger(s, Integer(x));
      OneMore(e.rest, xs[1..], x);
      assert xs + [x] == [xs[0]] + (xs[1..] + [x]);
    }
  }

  // RSAPublicKey reads as a SEQUENCE of the modulus and the public exponent.
  lemma RsaPublicKeyReads(n: nat, e: nat)
    requires Small(n) && Small(e)
    ensures |Integer(n) + Integer(e)| < 0x1_0000_0000
    ensures ReadElement(RsaPublicKey(n, e)) == Some(Element(0x30, Integer(n) + Integer(e), []))
    ensures ReadIntegers(Integer(n) + Integer(e)) == Some([n, e])
  {
    hide Integer, ReadIntegers, Bits;
    IntegerLength(n);
    IntegerLength(e);
    OneInteger(n);
    AndThen(Integer(n), [n], e, [n, e]);
    hide Tagged, ReadElement;
    WholeReads(0x30, Integer(n) + Integer(e));
  }

  // The fields of RSAPrivateKey read as the version 0 and the eight numbers, in their order.
  lemma RsaKeyPairReads(k: RsaKeyPair)
    requires SmallPair(k)
    ensures ReadIntegers(RsaFields(k)) == Some([0, k.n, k.e, k.d, k.p, k.q, k.dp, k.dq, k.qinv])
  {
    hide Integer, ReadIntegers, Small;
    ZeroSmall();
    OneInteger(0);
    var s := Integer(0);
    AndThen(s, [0], k.n, [0, k.n]);
    s := s + Integer(k.n);
    AndThen(s, [0, k.n], k.e, [0, k.n, k.e]);
    s := s + Integer(k.e);
    AndThen(s, [0, k.n, k.e], k.d, [0, k.n, k.e, k.d]);
    s := s + Integer(k.d);
    AndThen(s, [0, k.n, k.e, k.d], k.p, [0, k.n, k.e, k.d, k.p]);
    s := s + Integer(k.p);
    AndThen(s, [0, k.n, k.e, k.d, k.p], k.q, [0, k.n, k.e, k.d, k.p, k.q]);
    s := s + Integer(k.q);
    AndThen(s, [0, k.n, k.e, k.d, k.p, k.q], k.dp, [0, k.n, k.e, k.d, k.p, k.q, k.dp]);
    s := s + Integer(k.dp);
    AndThen(s, [0, k.n, k.e, k.d, k.p, k.q, k.dp], k.dq, [0, k.n, k.e, k.d, k.p, k.q, k.dp, k.dq]);
    s := s + Integer(k.dq);
    AndThen(s, [0, k.n, k.e, k.d, k.p, k.q, k.dp, k.dq], k.qinv, [0, k.n, k.e, k.d, k.p, k.q, k.dp, k.dq, k.qinv]);
  }

  lemma ZeroSmall()
    ensures Small(0)
  {
  }

  lemma DsaFieldsRead(p: nat, q: nat, g: nat, y: nat, x: nat)
    requires Small(p) && Small(q) && Small(g) && Small(y) && Small(x) && Small(0)
    ensures ReadIntegers(Integer(0) + Integer(p) + Integer(q) + Integer(g) + Integer(y) + Integer(x)) ==
            Some([0, p, q, g, y, x])
  {
    hide Integer, ReadIntegers, Small;
    OneInteger(0);
    var s := Integer(0);
    AndThen(s, [0], p, [0, p]);
    s := s + Integer(p);
    AndThen(s, [0, p], q, [0, p, q]);
    s := s + Integer(q);
    AndThen(s, [0, p, q], g, [0, p, q, g]);
    s := s + Integer(g);
    AndThen(s, [0, p, q, g], y, [0, p, q, g, y]);
    s := s + Integer(y);
    AndThen(s, [0, p, q, g, y], x, [0, p, q, g, y, x]);
  }

  lemma WholeReads(tag: Byte, content: Bytes)
    requires |content| < 0x1_0000_0000
    ensures ReadElement(Tagged(tag, content)) == Some(Element(tag, content, []))
  {
    hide Tagged, ReadElement;
    TaggedReads(tag, content, []);
    assert Tagged(tag, content) + [] == Tagged(tag, content);
  }

  // DSAPrivateKey reads as a SEQUENCE of the version 0, p, q, g, y and x.
  lemma DsaKeyPairReads(p: nat, q: nat, g: nat, y: nat, x: nat) returns (fields: Bytes)
    requires KeySized(p) && KeySized(q) && KeySized(g) && KeySized(y) && KeySized(x)
    ensures ReadElement(DsaKeyPair(p, q, g, y, x)) == Some(Element(0x30, fields, []))
    ensures ReadIntegers(fields) == Some([0, p, q, g, y, x])
  {
    hide Integer, ReadIntegers, Bits, Tagged, ReadElement;
    ZeroLength();
    IntegerUnder(p);
    IntegerUnder(q);
    IntegerUnder(g);
    IntegerUnder(y);
    IntegerUnder(x);
    DsaFieldsRead(p, q, g, y, x);
    fields := Integer(0) + Integer(p) + Integer(q) + Integer(g) + Integer(y) + Integer(x);
    WholeReads(0x30, fields);
  }

  lemma ParmsRead(p: nat, q: nat, g: nat)
    requires Small(p) && Small(q) && Small(g)
    ensures ReadIntegers(Integer(p) + Integer(q) + Integer(g)) == Some([p, q, g])
  {
    hide Integer, ReadIntegers, Small;
    OneInteger(p);
    AndThen(Integer(p), [p], q, [p, q]);
    AndThen(Integer(p) + Integer(q), [p, q], g, [p, q, g]);
  }

  lemma AlgorithmReads(parms: Bytes)
    requires |parms| < 0x1_0000
    ensures |DSA_OID + Tagged(0x30, parms)| < 0x2_0000
    ensures var id := Element(6, [0x2A, 0x86, 0x48, 0xCE, 0x38, 0x04, 0x01], Tagged(0x30, parms));
            ReadElement(DSA_OID + Tagged(0x30, parms)) == Some(id)
    ensures ReadElement(Tagged(0x30, parms)) == Some(Element(0x30, parms, []))
  {
    hide Tagged, ReadElement;
    TaggedLength(0x30, parms);
    OidReads(Tagged(0x30, parms));
    WholeReads(0x30, parms);
  }

  lemma KeyReads(y: nat)
    requires Small(y) && |Integer(y)| <= 8196
    ensures |BitString(Integer(y))| < 0x2_0000
    ensures ReadElement(BitString(Integer(y))) == Some(Element(3, [0] + Integer(y), []))
    ensures ReadIntegers(Integer(y)) == Some([y])
  {
    hide Integer, ReadIntegers, Tagged, ReadElement, Small;
    TaggedLength(3, [0] + Integer(y));
    WholeReads(3, [0] + Integer(y));
    OneInteger(y);
  }

  // SubjectPublicKeyInfo reads as a SEQUENCE of the algorithm, a SEQUENCE of the DSA identifier and the
  // parameters p, q, g, and a BIT STRING (no unused bits) that holds y.
  lemma DsaPublicKeyReads(p: nat, q: nat, g: nat, y: nat) returns (info: Bytes, algorithm: Bytes, parms: Bytes, key: Bytes)
    requires KeySized(p) && KeySized(q) && KeySized(g) && KeySized(y)
    ensures ReadElement(DsaPublicKey(p, q, g, y)) == Some(Element(0x30, info, []))
    ensures ReadElement(info) == Some(Element(0x30, algorithm, key))
    ensures ReadElement(algorithm).Some?
    ensures var id := ReadElement(algorithm).value;
            && id.tag == 6 && id.content == [0x2A, 0x86, 0x48, 0xCE, 0x38, 0x04, 0x01]
            && ReadElement(id.rest) == Some(Element(0x30, parms, []))
    ensures ReadIntegers(parms) == Some([p, q, g])
    ensures Small(y) && ReadElement(key) == Some(Element(3, [0] + Integer(y), [])) && ReadIntegers(Integer(y)) == Some([y])
  {
    hide Integer, ReadIntegers, Bits, Tagged, ReadElement, BitString, Wrapped;
    IntegerUnder(p);
    IntegerUnder(q);
    IntegerUnder(g);
    IntegerUnder(y);
    parms := Integer(p) + Integer(q) + Integer(g);
    ParmsRead(p, q, g);
    AlgorithmReads(parms);
    algorithm := DSA_OID + Tagged(0x30, parms);
    KeyReads(y);
    key := BitString(Integer(y));
    TaggedLength(0x30, algorithm);
    WrappedBelow(|algorithm|);
    info := Tagged(0x30, algorithm) + key;
    TaggedReads(0x30, algorithm, key);
    WholeReads(0x30, info);
  }

  lemma OidReads(rest: Bytes)
    ensures ReadElement(DSA_OID + rest) == Some(Element(6, [0x2A, 0x86, 0x48, 0xCE, 0x38, 0x04, 0x01], rest))
  {
    var s := DSA_OID + rest;
    assert s[1..][0] == 7 && s[1..][1..][7..] == rest;
    assert s[1..][1..][..7] == [0x2A, 0x86, 0x48, 0xCE, 0x38, 0x04, 0x01];
  }
}
