/** The few 32-bit operations the checksum uses, each with the algebra its proofs need.
    Proofs elsewhere work with these names and never look at single bits. */
module Words {

  function Xor(a: bv32, b: bv32): bv32 { a ^ b }

  /** `c >>> 1` */
  function Half(c: bv32): bv32 { c >> 1 }

  /** `c >>> 8` */
  function DropByte(c: bv32): bv32 { c >> 8 }

  function LowByte(c: bv32): bv32 { c & 0xff }

  function HighBytes(c: bv32): bv32 { c & 0xffff_ff00 }

  predicate Odd(c: bv32) { c & 1 == 1 }

  predicate TopBit(c: bv32) { Meets(c, 0x8000_0000) }

  function OfByte(b: bv8): bv32 { b as bv32 }

  lemma XorUnits(a: bv32)
    ensures Xor(a, 0) == a && Xor(0, a) == a && Xor(a, a) == 0
  {
  }

  // The raw facts name their subterms, so that the solver can substitute them away.
  lemma AssocRaw(a: bv32, b: bv32, c: bv32, ab: bv32, bc: bv32)
    requires ab == a ^ b && bc == b ^ c
    ensures ab ^ c == a ^ bc
  {
  }

  lemma XorAssoc(a: bv32, b: bv32, c: bv32)
    ensures Xor(Xor(a, b), c) == Xor(a, Xor(b, c))
  {
    AssocRaw(a, b, c, Xor(a, b), Xor(b, c));
  }

  lemma XorLeft(p: bv32, a: bv32, b: bv32)
    ensures Xor(a, Xor(p, b)) == Xor(p, Xor(a, b))
  {
    XorAssoc(a, p, b);
    XorCommutes(a, p);
    XorAssoc(p, a, b);
  }

  lemma XorCancel(p: bv32, a: bv32, b: bv32)
    ensures Xor(Xor(p, a), Xor(p, b)) == Xor(a, b)
    ensures Xor(Xor(a, p), Xor(b, p)) == Xor(a, b)
  {
  }

  lemma XorCommutes(a: bv32, b: bv32)
    ensures Xor(a, b) == Xor(b, a)
  {
  }

  lemma XorInjective(a: bv32, b: bv32, p: bv32)
    requires Xor(p, a) == Xor(p, b)
    ensures a == b
  {
  }

  lemma HalfOfXor(a: bv32, b: bv32)
    ensures Half(Xor(a, b)) == Xor(Half(a), Half(b))
  {
  }

  lemma OddOfXor(a: bv32, b: bv32)
    ensures Odd(Xor(a, b)) <==> Odd(a) != Odd(b)
  {
    assert (a ^ b) & 1 == (a & 1) ^ (b & 1);
    assert (a & 1 == 0 || a & 1 == 1) && (b & 1 == 0 || b & 1 == 1);
  }

  lemma OddAndHalf(a: bv32, b: bv32)
    requires Odd(a) == Odd(b) && Half(a) == Half(b)
    ensures a == b
  {
  }

  lemma TopBitOfHalf(a: bv32, p: bv32)
    requires TopBit(p)
    ensures !TopBit(Half(a)) && TopBit(Xor(p, Half(a)))
  {
  }

  lemma ZeroHalf()
    ensures Half(0) == 0 && !Odd(0)
  {
  }

  lemma SplitBytes(c: bv32)
    ensures c == Xor(LowByte(c), HighBytes(c))
  {
  }

  lemma HighBytesAfterByte(c: bv32, b: bv8)
    ensures DropByte(HighBytes(Xor(c, OfByte(b)))) == DropByte(c)
  {
    assert (b as bv32) & 0xff == b as bv32;
    HighBytesRaw(c, b as bv32);
  }

  lemma HighBytesRaw(c: bv32, w: bv32)
    requires w & 0xff == w
    ensures ((c ^ w) & 0xffff_ff00) >> 8 == c >> 8
  {
  }

  function Half2(c: bv32): bv32 { Half(Half(c)) }
  function Half4(c: bv32): bv32 { Half2(Half2(c)) }
  function Half8(c: bv32): bv32 { Half4(Half4(c)) }

  lemma EightHalves(c: bv32)
    ensures Half8(c) == DropByte(c)
  {
    assert c >> 1 >> 1 >> 1 >> 1 == c >> 4;
    assert c >> 4 >> 1 >> 1 >> 1 >> 1 == c >> 8;
  }

  /** The eight low bits of a word without a low byte are all clear. */
  lemma HighBytesEven(h: bv32)
    requires LowByte(h) == 0
    ensures !Odd(h) && !Odd(Half(h)) && !Odd(Half2(h)) && !Odd(Half(Half2(h)))
    ensures !Odd(Half4(h)) && !Odd(Half(Half4(h))) && !Odd(Half2(Half4(h))) && !Odd(Half(Half2(Half4(h))))
  {
    HighBytesEvenRaw(h);
  }

  lemma HighBytesEvenRaw(h: bv32)
    requires h & 0xff == 0
    ensures h & 1 == 0 && (h >> 1) & 1 == 0 && (h >> 1 >> 1) & 1 == 0 && (h >> 1 >> 1 >> 1) & 1 == 0
    ensures (h >> 1 >> 1 >> 1 >> 1) & 1 == 0 && (h >> 1 >> 1 >> 1 >> 1 >> 1) & 1 == 0
    ensures (h >> 1 >> 1 >> 1 >> 1 >> 1 >> 1) & 1 == 0 && (h >> 1 >> 1 >> 1 >> 1 >> 1 >> 1 >> 1) & 1 == 0
  {
  }

  lemma HighBytesLowByte(c: bv32)
    ensures LowByte(HighBytes(c)) == 0
  {
  }

  /** The bits of one byte, from the least significant (1) to the most significant (128). */
  function Bits(b: bv8): (bits: seq<bool>)
    ensures |bits| == 8
  {
    [b & 1 != 0, b & 2 != 0, b & 4 != 0, b & 8 != 0, b & 16 != 0, b & 32 != 0, b & 64 != 0, b & 128 != 0]
  }

  lemma BitsRaw(b: bv8, x: bv32)
    requires x == b as bv32
    ensures b & 1 != 0 <==> x & 1 == 1
    ensures b & 2 != 0 <==> (x >> 1) & 1 == 1
    ensures b & 4 != 0 <==> (x >> 1 >> 1) & 1 == 1
    ensures b & 8 != 0 <==> (x >> 1 >> 1 >> 1) & 1 == 1
    ensures b & 16 != 0 <==> (x >> 1 >> 1 >> 1 >> 1) & 1 == 1
    ensures b & 32 != 0 <==> (x >> 1 >> 1 >> 1 >> 1 >> 1) & 1 == 1
    ensures b & 64 != 0 <==> (x >> 1 >> 1 >> 1 >> 1 >> 1 >> 1) & 1 == 1
    ensures b & 128 != 0 <==> (x >> 1 >> 1 >> 1 >> 1 >> 1 >> 1 >> 1) & 1 == 1
    ensures x >> 1 >> 1 >> 1 >> 1 >> 1 >> 1 >> 1 >> 1 == 0
  {
  }

  /** `bits` lists the low bits of `x` upwards, and `x` has no others. */
  predicate LowBits(x: bv32, bits: seq<bool>)
    decreases |bits|
  {
    if bits == [] then x == 0 else bits[0] == Odd(x) && LowBits(Half(x), bits[1..])
  }

  lemma BitsOfHalves(b: bv8)
    ensures Bits(b) == [Odd(OfByte(b)), Odd(Half(OfByte(b))), Odd(Half2(OfByte(b))), Odd(Half(Half2(OfByte(b)))),
                        Odd(Half4(OfByte(b))), Odd(Half(Half4(OfByte(b)))), Odd(Half2(Half4(OfByte(b)))),
                        Odd(Half(Half2(Half4(OfByte(b)))))]
    ensures Half8(OfByte(b)) == 0
  {
    BitsRaw(b, OfByte(b));
  }

  /** Prepending the lowest bit keeps the listing. */
  lemma LowBitsCons(x: bv32, bits: seq<bool>)
    requires LowBits(Half(x), bits)
    ensures LowBits(x, [Odd(x)] + bits)
  {
    assert ([Odd(x)] + bits)[1..] == bits;
  }

  lemma FourLowBits(x: bv32, bits: seq<bool>)
    requires LowBits(Half4(x), bits)
    ensures LowBits(x, [Odd(x), Odd(Half(x)), Odd(Half2(x)), Odd(Half(Half2(x)))] + bits)
  {
    LowBitsCons(Half(Half2(x)), bits);
    LowBitsCons(Half2(x), [Odd(Half(Half2(x)))] + bits);
    LowBitsCons(Half(x), [Odd(Half2(x))] + ([Odd(Half(Half2(x)))] + bits));
    LowBitsCons(x, [Odd(Half(x))] + ([Odd(Half2(x))] + ([Odd(Half(Half2(x)))] + bits)));
    assert [Odd(x)] + ([Odd(Half(x))] + ([Odd(Half2(x))] + ([Odd(Half(Half2(x)))] + bits)))
        == [Odd(x), Odd(Half(x)), Odd(Half2(x)), Odd(Half(Half2(x)))] + bits;
  }

  lemma BitsOfByte(b: bv8)
    ensures LowBits(OfByte(b), Bits(b))
  {
    var x := OfByte(b);
    BitsOfHalves(b);
    FourLowBits(Half4(x), []);
    var high := [Odd(Half4(x)), Odd(Half(Half4(x))), Odd(Half2(Half4(x))), Odd(Half(Half2(Half4(x))))];
    assert high + [] == high;
    FourLowBits(x, high);
    assert Bits(b) == [Odd(x), Odd(Half(x)), Odd(Half2(x)), Odd(Half(Half2(x)))] + high;
  }

  function Bit(x: bool, mask: bv8): bv8 { if x then mask else 0 }

  function ByteFrom(a: bool, b: bool, c: bool, d: bool, e: bool, f: bool, g: bool, h: bool): bv8 {
    Bit(a, 1) | Bit(b, 2) | Bit(c, 4) | Bit(d, 8) | Bit(e, 16) | Bit(f, 32) | Bit(g, 64) | Bit(h, 128)
  }

  lemma BitsOfByteFrom(a: bool, b: bool, c: bool, d: bool, e: bool, f: bool, g: bool, h: bool)
    ensures Bits(ByteFrom(a, b, c, d, e, f, g, h)) == [a, b, c, d, e, f, g, h]
  {
  }

  lemma BitsInjective(a: bv8, b: bv8)
    requires Bits(a) == Bits(b)
    ensures a == b
  {
    var x, y := Bits(a), Bits(b);
    assert x[0] == y[0] && x[1] == y[1] && x[2] == y[2] && x[3] == y[3];
    assert x[4] == y[4] && x[5] == y[5] && x[6] == y[6] && x[7] == y[7];
    ByteFromBits(a, b);
  }

  lemma ByteFromBits(a: bv8, b: bv8)
    requires a & 1 != 0 <==> b & 1 != 0
    requires a & 2 != 0 <==> b & 2 != 0
    requires a & 4 != 0 <==> b & 4 != 0
    requires a & 8 != 0 <==> b & 8 != 0
    requires a & 16 != 0 <==> b & 16 != 0
    requires a & 32 != 0 <==> b & 32 != 0
    requires a & 64 != 0 <==> b & 64 != 0
    requires a & 128 != 0 <==> b & 128 != 0
    ensures a == b
  {
  }

  /** A table index as a 32-bit value. */
  function OfIndex(n: nat): bv32
    requires n < 256
  {
    n as bv32
  }

  /** The slot of the 256-entry table that a state selects. */
  function Slot(c: bv32): (n: nat)
    ensures n < 256
    ensures OfIndex(n) == LowByte(c)
  {
    assert LowByte(c) <= 0xff;
    LowByte(c) as nat
  }

  predicate Meets(r: bv32, mask: bv32) { r & mask != 0 }

  lemma MeetsHalf4(r: bv32)
    ensures Meets(r, 0x8000_0000) ==> Meets(Half4(r), 0x0800_0000)
  {
    assert r >> 1 >> 1 >> 1 >> 1 == r >> 4;
  }

  lemma MeetsHalf8(r: bv32)
    ensures Meets(r, 0x0800_0000) ==> Meets(Half8(r), 0x0008_0000)
    ensures Meets(r, 0x0008_0000) ==> Meets(Half8(r), 0x0000_0800)
    ensures Meets(r, 0x0000_0800) ==> Meets(Half8(r), 0x0000_0008)
  {
    EightHalves(r);
  }

  lemma MeetsLast(r: bv32)
    ensures Meets(r, 0x0000_0008) ==> Half(Half2(r)) != 0
  {
  }

  /** A set top bit is still there after 31 shifts. */
  lemma TopBitStays(r: bv32)
    requires TopBit(r)
    ensures Half(Half2(Half8(Half8(Half8(Half4(r)))))) != 0
  {
    MeetsHalf4(r);
    MeetsHalf8(Half4(r));
    MeetsHalf8(Half8(Half4(r)));
    MeetsHalf8(Half8(Half8(Half4(r))));
    MeetsLast(Half8(Half8(Half8(Half4(r)))));
  }

  /** The four bytes of a word, most significant first. */
  function WordBytes(c: bv32): (s: seq<bv8>)
    ensures |s| == 4
  {
    [(c >> 24) as bv8, ((c >> 16) & 0xff) as bv8, ((c >> 8) & 0xff) as bv8, (c & 0xff) as bv8]
  }

  lemma WordBytesRaw(c: bv32, d: bv32)
    requires (c >> 24) as bv8 == (d >> 24) as bv8
    requires ((c >> 16) & 0xff) as bv8 == ((d >> 16) & 0xff) as bv8
    requires ((c >> 8) & 0xff) as bv8 == ((d >> 8) & 0xff) as bv8
    requires (c & 0xff) as bv8 == (d & 0xff) as bv8
    ensures c == d
  {
  }

  lemma WordBytesInjective(c: bv32, d: bv32)
    requires WordBytes(c) == WordBytes(d)
    ensures c == d
  {
    var s, t := WordBytes(c), WordBytes(d);
    assert s[0] == t[0] && s[1] == t[1] && s[2] == t[2] && s[3] == t[3];
    WordBytesRaw(c, d);
  }
}
