/**
  The CRC-32 that protects the runtime configuration (Config_Crc32ForTest in runtime_config.c): the
  shift-and-mask loop, its table-driven form (section 8 of RFC 1952), the division of polynomials it
  performs, and the changes it detects.
*/
module Crc32 {
  import opened Words
  import F = GoodFcs
  import G = Gf2
  import T = TwoBits

  const POLY: Word := 0xEDB88320
  const ONES: Word := 0xFFFFFFFF

  function BitStep(r: Word): Word {
    if r % 2 == 1 then Xor(r / 2, POLY) else r / 2
  }

  function Steps(r: Word, k: nat): Word
    decreases k
  {
    if k == 0 then r else Steps(BitStep(r), k - 1)
  }

  function ByteStep(r: Word, b: Byte): Word {
    Steps(Xor(r, b), 8)
  }

  /** The register left by a message followed by its own check value, whatever the message: the "good
      FCS" of section C.3 of RFC 1662. */
  const RESIDUE: Word := 0xDEBB20E3

  /** The register after a byte string. */
  function Register(r: Word, bytes: seq<Byte>): Word
    decreases |bytes|, 1
  {
    if bytes == [] then r else Absorb(r, bytes)
  }

  function Absorb(r: Word, bytes: seq<Byte>): Word
    requires bytes != []
    decreases |bytes|, 0
  {
    ByteStep(Register(r, bytes[..|bytes| - 1]), bytes[|bytes| - 1])
  }

  function Crc(bytes: seq<Byte>): Word {
    Not(Register(ONES, bytes))
  }

  /** The loop of the source, with its mask in place of a branch. */
  method Compute(bytes: seq<Byte>) returns (result: Word)
    ensures result == Crc(bytes)
  {
    var crc := ONES;
    var i := 0;
    while i < |bytes|
      invariant i <= |bytes|
      invariant crc == Register(ONES, bytes[..i])
    {
      assert bytes[..i + 1][..i] == bytes[..i];
      ghost var before := crc;
      crc := Xor(crc, bytes[i]);
      var bit := 0;
      while bit < 8
        invariant bit <= 8
        invariant Steps(crc, 8 - bit) == ByteStep(before, bytes[i])
      {
        var mask := Negate(And(crc, 1));
        MaskSelects(crc);
        crc := Xor(crc / 2, And(POLY, mask));
        bit := bit + 1;
      }
      i := i + 1;
    }
    assert bytes[..i] == bytes;
    return Not(crc);
  }

  /** Negating the low bit gives a mask of all ones or all zeros. */
  lemma MaskSelects(r: Word)
    ensures Xor(r / 2, And(POLY, Negate(And(r, 1)))) == BitStep(r)
  {
    AndOne(r);
    if r % 2 == 1 {
      assert Negate(1) == ONES;
      AndOnes(POLY);
    } else {
      assert Negate(0) == 0;
      AndZero(POLY);
      XorZero(r / 2);
    }
  }

  lemma AndOne(r: Word)
    ensures And(r, 1) == r % 2
  {
    AndZero(r / 2);
  }

  lemma {:induction false} AndZero(a: nat)
    ensures AndNat(a, 0) == 0
  {
    if a > 0 {
      AndZero(a / 2);
    }
  }

  lemma AndOnes(a: Word)
    ensures And(a, ONES) == a
  {
    forall k | 0 <= k < 32 ensures Bit(And(a, ONES), k) == Bit(a, k) {
      BitAnd(a, ONES, k);
      BitOfOnes(k);
    }
    assert Bits(And(a, ONES), 32) == Bits(a, 32);
    WordInjective(And(a, ONES), a);
  }

  lemma {:induction false} BitOfZero(k: nat)
    ensures !Bit(0, k)
  {
    if k > 0 {
      BitOfZero(k - 1);
    }
  }

  lemma BitOfOnes(k: nat)
    requires k < 32
    ensures Bit(ONES, k)
  {
    Pow2Values();
    BitNot(0, 32, k);
    BitOfZero(k);
  }

  lemma XorZero(a: Word)
    ensures Xor(a, 0) == a
  {
    forall k | 0 <= k < 32 ensures Bit(Xor(a, 0), k) == Bit(a, k) {
      BitXor(a, 0, k);
      BitOfZero(k);
    }
    assert Bits(Xor(a, 0), 32) == Bits(a, 32);
    WordInjective(Xor(a, 0), a);
  }

  /** The register composes over concatenation. */
  lemma {:induction false} RegisterConcat(r: Word, a: seq<Byte>, b: seq<Byte>)
    ensures Register(r, a + b) == Register(Register(r, a), b)
    decreases |b|
  {
    if b == [] {
      assert a + b == a;
    } else {
      assert (a + b)[..|a + b| - 1] == a + b[..|b| - 1];
      RegisterConcat(r, a, b[..|b| - 1]);
    }
  }

  // ---- The word register is the bit register ----

  /** A byte string as its bits enter the register: bytes in order, low bit first. */
  function AllBits(bytes: seq<Byte>): (r: seq<bool>)
    ensures |r| == 8 * |bytes|
  {
    if bytes == [] then [] else Bits(bytes[0], 8) + AllBits(bytes[1..])
  }

  /** The four bytes of a word, each as eight bits, are its 32 bits. */
  lemma BitsByBytes(w: nat)
    ensures Bits(w, 32) == Bits(w, 8) + Bits(w / 256, 8) + Bits(w / 256 / 256, 8) + Bits(w / 256 / 256 / 256, 8)
  {
    forall k | 0 <= k < 32
      ensures Bit(w, k) == Bit(if k < 8 then w else if k < 16 then w / 256 else if k < 24 then w / 256 / 256
                               else w / 256 / 256 / 256, k % 8)
    {
      if 8 <= k { BitShift8(w, k - 8); }
      if 16 <= k { BitShift8(w / 256, k - 16); }
      if 24 <= k { BitShift8(w / 256 / 256, k - 24); }
    }
  }

  /** Four bits placed below a number. */
  function Below(rest: nat, b0: bool, b1: bool, b2: bool, b3: bool): nat {
    Digit(b0) + 2 * (Digit(b1) + 2 * (Digit(b2) + 2 * (Digit(b3) + 2 * rest)))
  }

  function Digit(b: bool): nat {
    if b then 1 else 0
  }

  lemma BitsBelow(rest: nat, b0: bool, b1: bool, b2: bool, b3: bool, k: nat)
    ensures Bit(Below(rest, b0, b1, b2, b3), 0) == b0 && Bit(Below(rest, b0, b1, b2, b3), 1) == b1
    ensures Bit(Below(rest, b0, b1, b2, b3), 2) == b2 && Bit(Below(rest, b0, b1, b2, b3), 3) == b3
    ensures Bit(Below(rest, b0, b1, b2, b3), k + 4) == Bit(rest, k)
  {
    var w := Below(rest, b0, b1, b2, b3);
    var w3 := Digit(b3) + 2 * rest;
    var w2 := Digit(b2) + 2 * w3;
    var w1 := Digit(b1) + 2 * w2;
    assert w == Digit(b0) + 2 * w1 && w / 2 == w1 && w1 / 2 == w2 && w2 / 2 == w3 && w3 / 2 == rest;
    assert Bit(w, 1) == Bit(w1, 0) && Bit(w, 2) == Bit(w1, 1) == Bit(w2, 0)
           && Bit(w, 3) == Bit(w1, 2) == Bit(w2, 1) == Bit(w3, 0);
    assert Bit(w, k + 4) == Bit(w1, k + 3) == Bit(w2, k + 2) == Bit(w3, k + 1) == Bit(rest, k);
  }

  lemma ByteBelow(w: nat, rest: nat, b0: bool, b1: bool, b2: bool, b3: bool, b4: bool, b5: bool, b6: bool, b7: bool)
    requires w == Below(Below(rest, b4, b5, b6, b7), b0, b1, b2, b3)
    ensures Bits(w, 8) == [b0, b1, b2, b3, b4, b5, b6, b7]
    ensures w / 256 == rest
  {
    var high := Below(rest, b4, b5, b6, b7);
    BitsBelow(high, b0, b1, b2, b3, 0);
    BitsBelow(high, b0, b1, b2, b3, 1);
    BitsBelow(high, b0, b1, b2, b3, 2);
    BitsBelow(high, b0, b1, b2, b3, 3);
    BitsBelow(rest, b4, b5, b6, b7, 0);
    BelowShifted(rest, b4, b5, b6, b7);
    BelowShifted(high, b0, b1, b2, b3);
  }

  lemma BelowShifted(rest: nat, b0: bool, b1: bool, b2: bool, b3: bool)
    ensures Below(rest, b0, b1, b2, b3) / 16 == rest
  {
  }

  lemma PolyIsTaps()
    ensures Bits(POLY, 32) == G.TAPS
  {
    ByteBelow(POLY, 0xEDB883, false, false, false, false, false, true, false, false);
    ByteBelow(0xEDB883, 0xEDB8, true, true, false, false, false, false, false, true);
    ByteBelow(0xEDB8, 0xED, false, false, false, true, true, true, false, true);
    ByteBelow(0xED, 0, true, false, true, true, false, true, true, true);
    FourBytesBits(POLY, 0xEDB883, 0xEDB8, 0xED);
  }

  lemma FourBytesBits(w: nat, w1: nat, w2: nat, w3: nat)
    requires w / 256 == w1 && w1 / 256 == w2 && w2 / 256 == w3
    ensures Bits(w, 32) == Bits(w, 8) + Bits(w1, 8) + Bits(w2, 8) + Bits(w3, 8)
  {
    BitsByBytes(w);
  }

  lemma XorIsXor(a: Word, b: Word)
    ensures Bits(Xor(a, b), 32) == G.Xor(Bits(a, 32), Bits(b, 32))
  {
    forall k | 0 <= k < 32 ensures Bit(Xor(a, b), k) == (Bit(a, k) != Bit(b, k)) {
      BitXor(a, b, k);
    }
  }

  lemma HalfShifts(r: Word)
    ensures Bits(r / 2, 32) == Bits(r, 32)[1..] + [false]
  {
    Pow2Values();
    BitPastTop(r, 32, 32);
    forall k | 0 <= k < 32 ensures Bit(r / 2, k) == (Bits(r, 32)[1..] + [false])[k] {
      assert Bit(r, k + 1) == Bit(r / 2, k);
    }
  }

  lemma BitStepIsStep(r: Word)
    ensures Bits(BitStep(r), 32) == G.StepBit(Bits(r, 32), false)
  {
    HalfShifts(r);
    assert Bits(r, 32)[0] == Bit(r, 0) == (r % 2 == 1);
    if r % 2 == 1 {
      XorIsXor(r / 2, POLY);
      PolyIsTaps();
    } else {
      assert G.Xor(Bits(r / 2, 32), G.Zeros(32)) == Bits(r / 2, 32);
    }
  }

  lemma {:induction false} StepsAreSteps(r: Word, k: nat)
    ensures Bits(Steps(r, k), 32) == G.Feed(Bits(r, 32), G.Zeros(k))
    decreases k
  {
    if k > 0 {
      BitStepIsStep(r);
      StepsAreSteps(BitStep(r), k - 1);
      assert G.Zeros(k)[1..] == G.Zeros(k - 1);
    }
  }

  lemma ByteAsBits(b: Byte)
    ensures Bits(b, 32) == Bits(b, 8) + G.Zeros(24)
  {
    Pow2Values();
    forall k | 8 <= k < 32 ensures !Bit(b, k) {
      BitPastTop(b, 8, k);
    }
  }

  lemma ByteStepIsFeed(r: Word, b: Byte)
    ensures Bits(ByteStep(r, b), 32) == G.Feed(Bits(r, 32), Bits(b, 8))
  {
    StepsAreSteps(Xor(r, b), 8);
    XorIsXor(r, b);
    ByteAsBits(b);
    G.AtOnce(Bits(r, 32), Bits(b, 8));
  }

  lemma {:induction false} AllBitsAppend(bytes: seq<Byte>, b: Byte)
    ensures AllBits(bytes + [b]) == AllBits(bytes) + Bits(b, 8)
  {
    if bytes == [] {
      assert bytes + [b] == [b] && [b][1..] == [];
    } else {
      assert (bytes + [b])[1..] == bytes[1..] + [b];
      AllBitsAppend(bytes[1..], b);
    }
  }

  lemma {:induction false} RegisterIsFeed(r: Word, bytes: seq<Byte>)
    ensures Bits(Register(r, bytes), 32) == G.Feed(Bits(r, 32), AllBits(bytes))
    decreases |bytes|
  {
    if bytes != [] {
      var init, last := bytes[..|bytes| - 1], bytes[|bytes| - 1];
      assert bytes == init + [last];
      RegisterIsFeed(r, init);
      ByteStepIsFeed(Register(r, init), last);
      AllBitsAppend(init, last);
      G.FeedConcat(Bits(r, 32), AllBits(init), Bits(last, 8));
    }
  }

  // ---- The table-driven form ----

  /** Entry `n` of the table of RFC 1952: eight bit steps from the byte alone. */
  function TableEntry(n: Byte): Word {
    Steps(n, 8)
  }

  function TableStep(r: Word, b: Byte): Word {
    Xor(TableEntry(Xor(r, b) % 256), r / 256)
  }

  function TableRegister(r: Word, bytes: seq<Byte>): Word
    decreases |bytes|
  {
    if bytes == [] then r else TableStep(TableRegister(r, bytes[..|bytes| - 1]), bytes[|bytes| - 1])
  }

  /** The low byte and the rest of a word, as registers. */
  lemma SplitLowByte(x: Word)
    ensures Bits(x % 256, 32) == Bits(x, 32)[..8] + G.Zeros(24)
    ensures Bits(x / 256, 32) == Bits(x, 32)[8..] + G.Zeros(8)
  {
    Pow2Values();
    forall k | 0 <= k < 32 ensures Bit(x / 256, k) == (Bits(x, 32)[8..] + G.Zeros(8))[k] {
      BitShift8(x, k);
      if k >= 24 { BitPastTop(x, 32, k + 8); }
    }
    forall k | 0 <= k < 32 ensures Bit(x % 256, k) == (Bits(x, 32)[..8] + G.Zeros(24))[k] {
      if k >= 8 { BitPastTop(x % 256, 8, k); } else { LowBits(x, x / 256, k, 8); }
    }
  }

  lemma {:induction false} LowBits(x: nat, high: nat, k: nat, n: nat)
    requires k < n && x >= high * Pow2(n)
    ensures Bit(x - high * Pow2(n), k) == Bit(x, k)
    decreases k
  {
    assert high * Pow2(n) == 2 * (high * Pow2(n - 1));
    if k > 0 {
      assert (x - high * Pow2(n)) / 2 == x / 2 - high * Pow2(n - 1);
      LowBits(x / 2, high, k - 1, n - 1);
    }
  }

  lemma TableStepIsByteStep(r: Word, b: Byte)
    ensures TableStep(r, b) == ByteStep(r, b)
  {
    var x := Xor(r, b);
    var low := Bits(x, 32)[..8] + G.Zeros(24);
    var high := G.Zeros(8) + Bits(x, 32)[8..];
    SplitLowByte(x);
    StepsAreSteps(x, 8);
    StepsAreSteps(x % 256, 8);
    assert Bits(x, 32) == G.Xor(low, high) && G.Xor(G.Zeros(8), G.Zeros(8)) == G.Zeros(8);
    G.FeedLinear(low, high, G.Zeros(8), G.Zeros(8));
    G.ZerosShift(high, 8);
    assert high[8..] + G.Zeros(8) == Bits(x / 256, 32);
    HighBytes(r, b);
    XorIsXor(TableEntry(x % 256), r / 256);
    WordInjective(TableStep(r, b), ByteStep(r, b));
  }

  lemma HighBytes(r: Word, b: Byte)
    ensures Bits(Xor(r, b) / 256, 32) == Bits(r / 256, 32)
  {
    Pow2Values();
    forall k | 0 <= k < 32 ensures Bit(Xor(r, b) / 256, k) == Bit(r / 256, k) {
      BitShift8(Xor(r, b), k);
      BitShift8(r, k);
      BitXor(r, b, k + 8);
      BitPastTop(b, 8, k + 8);
    }
  }

  /** For every byte string the bitwise and the table-driven register agree. */
  lemma {:induction false} TableAgrees(r: Word, bytes: seq<Byte>)
    ensures TableRegister(r, bytes) == Register(r, bytes)
    decreases |bytes|
  {
    if bytes != [] {
      TableAgrees(r, bytes[..|bytes| - 1]);
      TableStepIsByteStep(Register(r, bytes[..|bytes| - 1]), bytes[|bytes| - 1]);
    }
  }

  // ---- Polynomial division ----

  /** For every byte string, complementing the CRC gives the remainder of dividing, by the generator,
      the message times x^32 with its first 32 coefficients complemented; and by DivisionUnique it is
      the only string of 32 coefficients that differs from it by a multiple of the generator. */
  lemma CrcIsRemainder(bytes: seq<Byte>)
    ensures Bits(Not(Crc(bytes)), 32) == G.Remainder(G.Dividend(G.Ones(32), AllBits(bytes)))
  {
    var r := Register(ONES, bytes);
    assert Not(Crc(bytes)) == r;
    OnesAreOnes();
    RegisterIsFeed(ONES, bytes);
    G.RegisterIsRemainder(G.Ones(32), AllBits(bytes));
  }

  lemma CrcIsTheRemainder(bytes: seq<Byte>, q: seq<bool>, r: Word)
    requires |q| == 8 * |bytes| && G.Dividend(G.Ones(32), AllBits(bytes)) == G.Recombine(q, Bits(r, 32))
    ensures Crc(bytes) == Not(r)
  {
    CrcIsRemainder(bytes);
    G.DivisionUnique(G.Dividend(G.Ones(32), AllBits(bytes)), q, Bits(r, 32));
    WordInjective(r, Not(Crc(bytes)));
  }

  lemma OnesAreOnes()
    ensures Bits(ONES, 32) == G.Ones(32)
  {
    forall k | 0 <= k < 32 ensures Bit(ONES, k) {
      BitOfOnes(k);
    }
  }

  // ---- Burst detection ----

  lemma {:induction false} AllBitsInjective(a: seq<Byte>, b: seq<Byte>)
    requires |a| == |b| && AllBits(a) == AllBits(b)
    ensures a == b
  {
    if a != [] {
      assert Bits(a[0], 8) == AllBits(a)[..8] == AllBits(b)[..8] == Bits(b[0], 8);
      assert AllBits(a[1..]) == AllBits(a)[8..] == AllBits(b)[8..] == AllBits(b[1..]);
      Pow2Values();
      BitsInjective(a[0], b[0], 8);
      AllBitsInjective(a[1..], b[1..]);
    }
  }

  /** Any change of a byte string that is confined to 32 consecutive bits changes the register. */
  lemma RegisterDetectsBurst(r: Word, a: seq<Byte>, b: seq<Byte>, i: nat)
    requires |a| == |b| && a != b && G.DifferInWindow(AllBits(a), AllBits(b), i)
    ensures Register(r, a) != Register(r, b)
  {
    RegisterIsFeed(r, a);
    RegisterIsFeed(r, b);
    if Register(r, a) == Register(r, b) {
      G.BurstDetected(Bits(r, 32), AllBits(a), AllBits(b), i);
      AllBitsInjective(a, b);
    }
  }

  /** So does any change of at most two bits that are fewer than 224 places apart. */
  lemma RegisterDetectsTwoBits(r: Word, a: seq<Byte>, b: seq<Byte>, i: nat, j: nat)
    requires |a| == |b| && a != b && T.DifferOnlyAt(AllBits(a), AllBits(b), i, j)
    requires i < j < 8 * |a| && j - i < 224
    ensures Register(r, a) != Register(r, b)
  {
    RegisterIsFeed(r, a);
    RegisterIsFeed(r, b);
    if AllBits(a) == AllBits(b) {
      AllBitsInjective(a, b);
    }
    T.TwoBitsDetected(Bits(r, 32), AllBits(a), AllBits(b), i, j);
  }

  // ---- The check value in place: the residue ----

  lemma WordBytesBits(w: Word)
    ensures AllBits(LittleEndian(w, 4)) == Bits(w, 32)
  {
    var b := LittleEndian(w, 4);
    var w1, w2, w3 := w / 256, w / 256 / 256, w / 256 / 256 / 256;
    FourBytes(w);
    assert w2 == w / 0x1_0000 && w3 == w / 0x100_0000 && b == [w % 256, w1 % 256, w2 % 256, w3];
    BitsByBytes(w);
    LowByte(w);
    LowByte(w1);
    LowByte(w2);
    AllBitsOfFour(b);
  }

  lemma LowByte(w: nat)
    ensures Bits(w % 256, 8) == Bits(w, 8)
  {
    Pow2Values();
    forall k | 0 <= k < 8 ensures Bit(w % 256, k) == Bit(w, k) {
      LowBits(w, w / 256, k, 8);
    }
  }

  lemma AllBitsOfFour(b: seq<Byte>)
    requires |b| == 4
    ensures AllBits(b) == Bits(b[0], 8) + Bits(b[1], 8) + Bits(b[2], 8) + Bits(b[3], 8)
  {
    var c := b[1..];
    var d := c[1..];
    assert d[1..] == [b[3]] && AllBits([b[3]]) == Bits(b[3], 8);
    assert AllBits(d) == Bits(b[2], 8) + Bits(b[3], 8);
    assert AllBits(c) == Bits(b[1], 8) + AllBits(d);
  }

  lemma ResidueBits()
    ensures Bits(RESIDUE, 32) == F.Row(F.AFTER32)
  {
    ByteBelow(RESIDUE, 0xDEBB20, true, true, false, false, false, true, true, true);
    ByteBelow(0xDEBB20, 0xDEBB, false, false, false, false, false, true, false, false);
    ByteBelow(0xDEBB, 0xDE, true, true, false, true, true, true, false, true);
    ByteBelow(0xDE, 0, false, true, true, true, true, false, true, true);
    FourBytesBits(RESIDUE, 0xDEBB20, 0xDEBB, 0xDE);
  }

  /** The residue is what 32 zero bits make of the initial register. */
  lemma ResidueRegister()
    ensures G.Feed(G.Ones(32), G.Zeros(32)) == Bits(RESIDUE, 32)
    ensures Steps(ONES, 32) == RESIDUE
  {
    F.ThirtyTwoZeros();
    ResidueBits();
    OnesAreOnes();
    StepsAreSteps(ONES, 32);
    WordInjective(Steps(ONES, 32), RESIDUE);
  }

  /** A word is the check value of a message exactly when the register over message and word is the residue. */
  lemma CheckValueIffResidue(bytes: seq<Byte>, w: Word)
    ensures w == Crc(bytes) <==> Register(ONES, bytes + LittleEndian(w, 4)) == RESIDUE
  {
    var r := Register(ONES, bytes);
    RegisterConcat(ONES, bytes, LittleEndian(w, 4));
    RegisterIsFeed(r, LittleEndian(w, 4));
    WordBytesBits(w);
    var x := G.Xor(Bits(r, 32), Bits(w, 32));
    assert Bits(w, 32) + G.Zeros(0) == Bits(w, 32);
    G.AtOnce(Bits(r, 32), Bits(w, 32));
    ResidueRegister();
    ComplementBits(r, w);
    if Register(r, LittleEndian(w, 4)) == RESIDUE {
      G.FeedInjective(x, G.Ones(32), G.Zeros(32));
    } else if w == Not(r) {
      WordInjective(Register(r, LittleEndian(w, 4)), RESIDUE);
    }
  }

  lemma ComplementBits(r: Word, w: Word)
    ensures w == Not(r) <==> G.Xor(Bits(r, 32), Bits(w, 32)) == G.Ones(32)
  {
    Pow2Values();
    var x := G.Xor(Bits(r, 32), Bits(w, 32));
    forall k | 0 <= k < 32 ensures Bit(Not(r), k) == !Bit(r, k) {
      BitNot(r, 32, k);
    }
    if x == G.Ones(32) {
      forall k | 0 <= k < 32 ensures Bits(w, 32)[k] == Bits(Not(r), 32)[k] {
        assert x[k];
      }
      WordInjective(w, Not(r));
    }
  }
}
