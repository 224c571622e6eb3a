/** The CRC-32 of the icon encoder (setup/lib/teams-manifest.ts).

    Three forms of one checksum:
      - `Serial` feeds a shift register one message bit at a time, least
        significant bit of each byte first, as section 3.4 of RFC 2083 words it;
      - `Steps` runs a byte that was already xored into the register;
      - `Crc32` is the loop of the source, one table lookup per byte.
    The lemmas connect the three and prove what a CRC-32 is for: any two
    buffers that differ in one burst of at most 32 bits get different sums. */
module Crc32 {
  import opened Words

  const POLY: bv32 := 0xedb8_8320
  const ONES: bv32 := 0xffff_ffff

  // ---- The reference: a bit-serial shift register ----

  function SerialBit(reg: bv32, bit: bool): bv32 {
    if Odd(reg) != bit then Xor(POLY, Half(reg)) else Half(reg)
  }

  function Serial(reg: bv32, bits: seq<bool>): bv32
    decreases |bits|
  {
    if bits == [] then reg else Serial(SerialBit(reg, bits[0]), bits[1..])
  }

  function MessageBits(buf: seq<bv8>): (bits: seq<bool>)
    ensures |bits| == 8 * |buf|
  {
    if buf == [] then [] else Bits(buf[0]) + MessageBits(buf[1..])
  }

  /** RFC 2083, section 3.4: start from all ones, feed every bit, invert at the end. */
  function Spec(buf: seq<bv8>): bv32 {
    Xor(ONES, Serial(ONES, MessageBits(buf)))
  }

  // ---- The byte-wise form ----

  function BitStep(c: bv32): bv32 {
    if Odd(c) then Xor(POLY, Half(c)) else Half(c)
  }

  function Steps(c: bv32, k: nat): bv32
    decreases k
  {
    if k == 0 then c else Steps(BitStep(c), k - 1)
  }

  function ByteStep(c: bv32, b: bv8): bv32 {
    Steps(Xor(c, OfByte(b)), 8)
  }

  function Run(c: bv32, buf: seq<bv8>): bv32
    decreases |buf|
  {
    if buf == [] then c else Run(ByteStep(c, buf[0]), buf[1..])
  }

  // ---- The bit step is linear and invertible ----

  function Selected(odd: bool, half: bv32): bv32 {
    if odd then Xor(POLY, half) else half
  }

  lemma SelectedXor(p: bool, q: bool, c: bv32, d: bv32, both: bv32)
    requires both == Xor(c, d)
    ensures Selected(p != q, both) == Xor(Selected(p, c), Selected(q, d))
  {
    XorAssoc(POLY, c, d);
    XorLeft(POLY, c, d);
    XorCancel(POLY, c, d);
  }

  lemma {:induction false} StepsLinear(c: bv32, d: bv32, k: nat)
    ensures Steps(Xor(c, d), k) == Xor(Steps(c, k), Steps(d, k))
    decreases k
  {
    if k == 0 {
    } else {
      HalfOfXor(c, d);
      OddOfXor(c, d);
      SelectedXor(Odd(c), Odd(d), Half(c), Half(d), Half(Xor(c, d)));
      StepsLinear(BitStep(c), BitStep(d), k - 1);
    }
  }

  /** The top bit of the result tells which branch was taken, so no two states merge. */
  lemma BitStepInjective(c: bv32, d: bv32)
    requires BitStep(c) == BitStep(d)
    ensures c == d
  {
    TopBitOfHalf(c, POLY);
    TopBitOfHalf(d, POLY);
    if Odd(c) { XorInjective(Half(c), Half(d), POLY); }
    OddAndHalf(c, d);
  }

  // ---- Byte-wise equals bit-serial ----

  /** Xoring a bit into the register before the step is the same as feeding it. */
  lemma FeedIsXor(c: bv32, x: bv32)
    ensures BitStep(Xor(c, x)) == Xor(SerialBit(c, Odd(x)), Half(x))
  {
    OddOfXor(c, x);
    HalfOfXor(c, x);
    SelectedXor(Odd(c) != Odd(x), false, Half(c), Half(x), Half(Xor(c, x)));
  }

  lemma {:induction false} SerialIsSteps(c: bv32, x: bv32, bits: seq<bool>)
    requires LowBits(x, bits)
    ensures Serial(c, bits) == Steps(Xor(c, x), |bits|)
    decreases |bits|
  {
    if bits == [] {
      XorUnits(c);
    } else {
      FeedIsXor(c, x);
      SerialIsSteps(SerialBit(c, bits[0]), Half(x), bits[1..]);
    }
  }

  lemma {:induction false} SerialAppend(c: bv32, a: seq<bool>, b: seq<bool>)
    ensures Serial(c, a + b) == Serial(Serial(c, a), b)
    decreases |a|
  {
    if a == [] {
      assert a + b == b;
    } else {
      assert (a + b)[1..] == a[1..] + b;
      SerialAppend(SerialBit(c, a[0]), a[1..], b);
    }
  }

  lemma {:induction false} RunIsSerial(c: bv32, buf: seq<bv8>)
    ensures Run(c, buf) == Serial(c, MessageBits(buf))
    decreases |buf|
  {
    if buf == [] {
    } else {
      BitsOfByte(buf[0]);
      SerialIsSteps(c, OfByte(buf[0]), Bits(buf[0]));
      SerialAppend(c, Bits(buf[0]), MessageBits(buf[1..]));
      RunIsSerial(ByteStep(c, buf[0]), buf[1..]);
    }
  }

  // ---- The table ----

  /** Eight bit steps of the index; bound, the number stays folded in proofs. */
  ghost predicate IsEntry(entry: bv32, n: nat)
    requires n < 256
  {
    exists k: nat :: k == 8 && entry == Steps(OfIndex(n), k)
  }

  ghost predicate IsCrcTable(table: seq<bv32>) {
    |table| == 256 && forall n: nat :: n < 256 ==> IsEntry(table[n], n)
  }

  lemma {:induction false} StepsExtend(c: bv32, k: nat)
    ensures Steps(c, k + 1) == BitStep(Steps(c, k))
    decreases k
  {
    if k == 0 {
    } else {
      StepsExtend(BitStep(c), k - 1);
    }
  }

  lemma FourEvenSteps(h: bv32, k: nat)
    requires k >= 4
    requires !Odd(h) && !Odd(Half(h)) && !Odd(Half2(h)) && !Odd(Half(Half2(h)))
    ensures Steps(h, k) == Steps(Half4(h), k - 4)
  {
    assert Steps(h, k) == Steps(Half(h), k - 1);
    assert Steps(Half(h), k - 1) == Steps(Half2(h), k - 2);
    assert Steps(Half2(h), k - 2) == Steps(Half(Half2(h)), k - 3);
  }

  /** With eight low zero bits a byte step is a plain shift. */
  lemma StepsOfHighBytes(h: bv32)
    requires LowByte(h) == 0
    ensures Steps(h, 8) == DropByte(h)
  {
    HighBytesEven(h);
    FourEvenSteps(h, 8);
    FourEvenSteps(Half4(h), 4);
    EightHalves(h);
  }

  /** One table lookup is eight bit steps on the whole 32-bit state. */
  lemma TableStep(table: seq<bv32>, c: bv32, b: bv8)
    requires IsCrcTable(table)
    ensures Xor(table[Slot(Xor(c, OfByte(b)))], DropByte(c)) == ByteStep(c, b)
  {
    var x := Xor(c, OfByte(b));
    assert IsEntry(table[Slot(x)], Slot(x));
    SplitBytes(x);
    StepsLinear(LowByte(x), HighBytes(x), 8);
    HighBytesLowByte(x);
    StepsOfHighBytes(HighBytes(x));
    HighBytesAfterByte(c, b);
  }

  method TableEntry(n: nat) returns (c: bv32)
    requires n < 256
    ensures IsEntry(c, n)
  {
    c := OfIndex(n);
    for k := 0 to 8
      invariant c == Steps(OfIndex(n), k)
    {
      StepsExtend(OfIndex(n), k);
      c := if Odd(c) then Xor(POLY, Half(c)) else Half(c);
    }
  }

  method BuildTable() returns (table: array<bv32>)
    ensures fresh(table) && IsCrcTable(table[..])
  {
    table := new bv32[256];
    for n := 0 to 256
      invariant forall m: nat :: m < n ==> IsEntry(table[m], m)
    {
      var entry := TableEntry(n);
      table[n] := entry;
    }
  }

  lemma {:induction false} RunAppend(c: bv32, a: seq<bv8>, b: bv8)
    ensures Run(c, a + [b]) == ByteStep(Run(c, a), b)
    decreases |a|
  {
    if a == [] {
      assert (a + [b])[1..] == [];
    } else {
      assert (a + [b])[1..] == a[1..] + [b];
      RunAppend(ByteStep(c, a[0]), a[1..], b);
    }
  }

  /** The table-driven loop computes the bit-serial checksum of RFC 2083 for every buffer. */
  method Crc32(table: array<bv32>, buf: seq<bv8>) returns (crc: bv32)
    requires IsCrcTable(table[..])
    ensures crc == Spec(buf)
  {
    var c := ONES;
    for i := 0 to |buf|
      invariant c == Run(ONES, buf[..i])
    {
      TableStep(table[..], c, buf[i]);
      RunAppend(ONES, buf[..i], buf[i]);
      assert buf[..i + 1] == buf[..i] + [buf[i]];
      c := Xor(table[Slot(Xor(c, OfByte(buf[i])))], DropByte(c));
    }
    assert buf[..|buf|] == buf;
    RunIsSerial(ONES, buf);
    XorCommutes(c, ONES);
    crc := Xor(c, ONES);
  }

  // ---- The polynomial and a known checksum ----

  /** Section 3.4 of RFC 2083: the polynomial's terms below x^32, the term x^e at bit 31 - e. */
  lemma PolynomialIs()
    ensures POLY == (1 << 5) | (1 << 8) | (1 << 9) | (1 << 15) | (1 << 19) | (1 << 20) | (1 << 21) | (1 << 23)
                    | (1 << 24) | (1 << 26) | (1 << 27) | (1 << 29) | (1 << 30) | (1 << 31)
  {
  }

  lemma EightSteps(c: bv32, b: bv8, c0: bv32, c1: bv32, c2: bv32, c3: bv32, c4: bv32, c5: bv32, c6: bv32, c7: bv32,
                   c8: bv32)
    requires Xor(c, OfByte(b)) == c0 && BitStep(c0) == c1 && BitStep(c1) == c2 && BitStep(c2) == c3
    requires BitStep(c3) == c4 && BitStep(c4) == c5 && BitStep(c5) == c6 && BitStep(c6) == c7 && BitStep(c7) == c8
    ensures ByteStep(c, b) == c8
  {
    FourSteps(c0, c1, c2, c3, c4, 8);
    FourSteps(c4, c5, c6, c7, c8, 4);
  }

  lemma FourSteps(c0: bv32, c1: bv32, c2: bv32, c3: bv32, c4: bv32, k: nat)
    requires BitStep(c0) == c1 && BitStep(c1) == c2 && BitStep(c2) == c3 && BitStep(c3) == c4 && k >= 4
    ensures Steps(c0, k) == Steps(c4, k - 4)
  {
    assert Steps(c1, k - 1) == Steps(c2, k - 2) && Steps(c2, k - 2) == Steps(c3, k - 3);
  }

  /** The checksum of the chunk type IEND, which ends every PNG file. */
  lemma ChecksumOfEnd()
    ensures Spec([0x49, 0x45, 0x4e, 0x44]) == 0xae42_6082
  {
    var text: seq<bv8> := [0x49, 0x45, 0x4e, 0x44];
    EightSteps(0xffff_ffff, 0x49, 0xffff_ffb6, 0x7fff_ffdb, 0xd247_7ccd,
               0x849b_3d46, 0x424d_9ea3, 0xcc9e_4c71, 0x8bf7_a518, 0x45fb_d28c, 0x22fd_e946);
    EightSteps(0x22fd_e946, 0x45, 0x22fd_e903, 0xfcc6_77a1, 0x93db_b8f0,
               0x49ed_dc78, 0x24f6_ee3c, 0x127b_771e, 0x093d_bb8f, 0xe926_5ee7, 0x992b_ac53);
    EightSteps(0x992b_ac53, 0x4e, 0x992b_ac1d, 0xa12d_552e, 0x5096_aa97,
               0xc5f3_d66b, 0x8f41_6815, 0xaa18_372a, 0x550c_1b95, 0xc73e_8eea, 0x639f_4775);
    EightSteps(0x639f_4775, 0x44, 0x639f_4731, 0xdc77_20b8, 0x6e3b_905c,
               0x371d_c82e, 0x1b8e_e417, 0xe07f_f12b, 0x9d87_7bb5, 0xa37b_3efa, 0x51bd_9f7d);
    assert text[1..] == [0x45, 0x4e, 0x44] && text[1..][1..] == [0x4e, 0x44];
    assert text[1..][1..][1..] == [0x44] && text[1..][1..][1..][1..] == [];
    assert Run(ONES, text) == 0x51bd_9f7d;
    RunIsSerial(ONES, text);
  }

  // ---- Burst detection ----

  ghost function Differences(a: seq<bool>, b: seq<bool>): (d: seq<bool>)
    requires |a| == |b|
    ensures |d| == |a|
    ensures forall i :: 0 <= i < |a| ==> d[i] == (a[i] != b[i])
  {
    seq(|a|, i requires 0 <= i < |a| => a[i] != b[i])
  }

  lemma SerialBitAffine(c: bv32, d: bv32, both: bv32, x: bool, y: bool)
    requires Half(both) == Xor(Half(c), Half(d))
    requires Odd(both) <==> Odd(c) != Odd(d)
    ensures SerialBit(both, x != y) == Xor(SerialBit(c, x), SerialBit(d, y))
  {
    SelectedXor(Odd(c) != x, Odd(d) != y, Half(c), Half(d), Half(both));
  }

  /** The register is affine: two runs differ by the run of their difference from zero. */
  lemma {:induction false} SerialAffine(c: bv32, d: bv32, a: seq<bool>, b: seq<bool>)
    requires |a| == |b|
    ensures Xor(Serial(c, a), Serial(d, b)) == Serial(Xor(c, d), Differences(a, b))
    decreases |a|
  {
    if a == [] {
    } else {
      var x, y := a[0], b[0];
      assert SerialBit(Xor(c, d), x != y) == Xor(SerialBit(c, x), SerialBit(d, y)) by {
        HalfOfXor(c, d);
        OddOfXor(c, d);
        SerialBitAffine(c, d, Xor(c, d), x, y);
      }
      SerialAffine(SerialBit(c, x), SerialBit(d, y), a[1..], b[1..]);
      assert Differences(a, b)[1..] == Differences(a[1..], b[1..]);
    }
  }

  /** Some bit at index n or above is set. */
  ghost predicate Reaches(r: bv32, n: nat)
    decreases n
  {
    if n == 0 then r != 0 else Reaches(Half(r), n - 1)
  }

  lemma {:induction false} ReachesLess(r: bv32, n: nat, m: nat)
    requires Reaches(r, n) && m <= n
    ensures Reaches(r, m)
    decreases n
  {
    if m == 0 {
      ZeroHalf();
      if n > 0 { ReachesLess(Half(r), n - 1, 0); }
    } else {
      ReachesLess(Half(r), n - 1, m - 1);
    }
  }

  lemma ReachesByFour(r: bv32, n: nat)
    requires Reaches(Half4(r), n)
    ensures Reaches(r, n + 4)
  {
    assert Reaches(Half(Half2(r)), n + 1);
    assert Reaches(Half2(r), n + 2);
    assert Reaches(Half(r), n + 3);
  }

  lemma TopBitReaches(r: bv32)
    requires TopBit(r)
    ensures Reaches(r, 31)
  {
    var low := Half8(Half8(Half8(Half4(r))));
    TopBitStays(r);
    assert Reaches(Half(Half2(low)), 0);
    assert Reaches(Half2(low), 1);
    assert Reaches(Half(low), 2);
    assert Reaches(low, 3);
    ReachesByFour(Half4(Half8(Half8(Half4(r)))), 3);
    ReachesByFour(Half8(Half8(Half4(r))), 7);
    ReachesByFour(Half4(Half8(Half4(r))), 11);
    ReachesByFour(Half8(Half4(r)), 15);
    ReachesByFour(Half4(Half4(r)), 19);
    ReachesByFour(Half4(r), 23);
    ReachesByFour(r, 27);
  }

  /** A register that still reaches bit n cannot be emptied by n more bits. */
  lemma {:induction false} SurvivesBurst(r: bv32, bits: seq<bool>)
    requires |bits| <= 31 && Reaches(r, |bits|)
    ensures Serial(r, bits) != 0
    decreases |bits|
  {
    if bits == [] {
    } else {
      var next := SerialBit(r, bits[0]);
      if Odd(r) != bits[0] {
        TopBitOfHalf(r, POLY);
        TopBitReaches(next);
        ReachesLess(next, 31, |bits| - 1);
      }
      SurvivesBurst(next, bits[1..]);
    }
  }

  lemma {:induction false} ZerosKeepZero(bits: seq<bool>)
    requires forall i :: 0 <= i < |bits| ==> !bits[i]
    ensures Serial(0, bits) == 0
    decreases |bits|
  {
    if bits == [] {
    } else {
      ZeroHalf();
      ZerosKeepZero(bits[1..]);
    }
  }

  lemma {:induction false} ZerosKeepNonzero(r: bv32, bits: seq<bool>)
    requires r != 0 && forall i :: 0 <= i < |bits| ==> !bits[i]
    ensures Serial(r, bits) != 0
    decreases |bits|
  {
    if bits == [] {
    } else {
      ZeroHalf();
      if BitStep(r) == 0 { BitStepInjective(r, 0); }
      ZerosKeepNonzero(BitStep(r), bits[1..]);
    }
  }

  /** A nonzero error confined to 32 consecutive bits leaves the register nonzero. */
  lemma BurstLeavesTrace(bits: seq<bool>, first: nat)
    requires first < |bits| && bits[first]
    requires forall i :: 0 <= i < |bits| && bits[i] ==> first <= i < first + 32
    ensures Serial(0, bits) != 0
  {
    var stop := if first + 32 <= |bits| then first + 32 else |bits|;
    var head, burst, tail := bits[..first], bits[first + 1..stop], bits[stop..];
    assert bits == head + ([true] + (burst + tail));
    SerialAppend(0, head, [true] + (burst + tail));
    ZerosKeepZero(head);
    assert ([true] + (burst + tail))[1..] == burst + tail;
    ZeroHalf();
    XorUnits(POLY);
    BurstOutlives(burst, tail);
  }

  /** The set bit leaves the polynomial, which 31 more bits cannot clear. */
  lemma BurstOutlives(burst: seq<bool>, tail: seq<bool>)
    requires |burst| <= 31 && forall i :: 0 <= i < |tail| ==> !tail[i]
    ensures Serial(POLY, burst + tail) != 0
  {
    SerialAppend(POLY, burst, tail);
    TopBitReaches(POLY);
    ReachesLess(POLY, 31, |burst|);
    SurvivesBurst(POLY, burst);
    ZerosKeepNonzero(Serial(POLY, burst), tail);
  }

  lemma FirstSet(bits: seq<bool>, k: nat) returns (first: nat)
    requires k < |bits| && bits[k]
    ensures first <= k && bits[first] && forall i :: 0 <= i < first ==> !bits[i]
  {
    first := 0;
    while !bits[first]
      invariant first <= k && forall i :: 0 <= i < first ==> !bits[i]
      decreases k - first
    {
      first := first + 1;
    }
  }

  /** Two buffers of one length whose bits differ, but only inside 32
      consecutive positions, never share a checksum. */
  lemma BurstDetected(a: seq<bv8>, b: seq<bv8>, lo: nat)
    requires |a| == |b| && MessageBits(a) != MessageBits(b)
    requires forall i :: 0 <= i < 8 * |a| && MessageBits(a)[i] != MessageBits(b)[i] ==> lo <= i < lo + 32
    ensures Spec(a) != Spec(b)
  {
    var x, y := MessageBits(a), MessageBits(b);
    var k :| 0 <= k < |x| && x[k] != y[k];
    var d := Differences(x, y);
    var first := FirstSet(d, k);
    BurstLeavesTrace(d, first);
    SerialAffine(ONES, ONES, x, y);
    XorUnits(ONES);
    XorCancel(ONES, Serial(ONES, x), Serial(ONES, y));
    XorUnits(Spec(a));
  }

  lemma {:induction false} MessageBitAt(buf: seq<bv8>, j: nat, k: nat)
    requires j < |buf| && k < 8
    ensures MessageBits(buf)[8 * j + k] == Bits(buf[j])[k]
    decreases j
  {
    var head, rest := Bits(buf[0]), MessageBits(buf[1..]);
    assert MessageBits(buf) == head + rest;
    if j == 0 {
    } else {
      MessageBitAt(buf[1..], j - 1, k);
      assert (head + rest)[8 * j + k] == rest[8 * (j - 1) + k];
    }
  }

  lemma ByteOfDifferentBit(a: seq<bv8>, b: seq<bv8>, i: nat)
    requires |a| == |b| && i < 8 * |a| && MessageBits(a)[i] != MessageBits(b)[i]
    ensures a[i / 8] != b[i / 8]
  {
    assert i == 8 * (i / 8) + i % 8;
    MessageBitAt(a, i / 8, i % 8);
    MessageBitAt(b, i / 8, i % 8);
  }

  lemma {:induction false} MessageBitsInjective(a: seq<bv8>, b: seq<bv8>)
    requires |a| == |b| && MessageBits(a) == MessageBits(b)
    ensures a == b
  {
    if a == [] {
    } else {
      var x, y := MessageBits(a), MessageBits(b);
      assert Bits(a[0]) == x[..8] && Bits(b[0]) == y[..8];
      BitsInjective(a[0], b[0]);
      assert MessageBits(a[1..]) == x[8..] && MessageBits(b[1..]) == y[8..];
      MessageBitsInjective(a[1..], b[1..]);
      assert a == [a[0]] + a[1..] && b == [b[0]] + b[1..];
    }
  }

  /** The byte form: a change confined to four consecutive bytes is always seen. */
  lemma FourByteWindowDetected(a: seq<bv8>, b: seq<bv8>, lo: nat)
    requires |a| == |b| && a != b
    requires forall i :: 0 <= i < |a| && a[i] != b[i] ==> lo <= i < lo + 4
    ensures Spec(a) != Spec(b)
  {
    if MessageBits(a) == MessageBits(b) { MessageBitsInjective(a, b); }
    forall i | 0 <= i < 8 * |a| && MessageBits(a)[i] != MessageBits(b)[i]
      ensures 8 * lo <= i < 8 * lo + 32
    {
      ByteOfDifferentBit(a, b, i);
    }
    BurstDetected(a, b, 8 * lo);
  }
}
