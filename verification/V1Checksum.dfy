/** The checksum of version 1 configuration records (configV1Checksum in runtime_config.c). */
module V1Checksum {
  import opened Common
  import opened Words

  function SumStep(sum: Word, b: Byte): Word {
    Xor(sum * 33 % U32, b)
  }

  function SumFrom(sum: Word, bytes: seq<Byte>): Word
    decreases |bytes|
  {
    if bytes == [] then sum else SumFrom(SumStep(sum, bytes[0]), bytes[1..])
  }

  function Checksum(bytes: seq<Byte>): Word {
    SumFrom(0, bytes)
  }

  method Compute(bytes: seq<Byte>) returns (sum: Word)
    ensures sum == Checksum(bytes)
  {
    sum := 0;
    var i := 0;
    while i < |bytes|
      invariant i <= |bytes|
      invariant SumFrom(sum, bytes[i..]) == Checksum(bytes)
    {
      assert bytes[i..][0] == bytes[i] && bytes[i..][1..] == bytes[i + 1..];
      sum := Xor(sum * 33 % U32, bytes[i]);
      i := i + 1;
    }
  }

  lemma XorInjective(a: Word, b: Word, x: Word)
    requires Xor(a, x) == Xor(b, x)
    ensures a == b
  {
    forall k | 0 <= k < 32 ensures Bit(a, k) == Bit(b, k) {
      BitXor(a, x, k);
      BitXor(b, x, k);
    }
    assert Bits(a, 32) == Bits(b, 32);
    WordInjective(a, b);
  }

  lemma XorSymmetric(a: Word, b: Word)
    ensures Xor(a, b) == Xor(b, a)
  {
    forall k | 0 <= k < 32 ensures Bit(Xor(a, b), k) == Bit(Xor(b, a), k) {
      BitXor(a, b, k);
      BitXor(b, a, k);
    }
    assert Bits(Xor(a, b), 32) == Bits(Xor(b, a), 32);
    WordInjective(Xor(a, b), Xor(b, a));
  }

  /** The inverse of 33 modulo 2^32. */
  const INVERSE_OF_33: nat := 0x3E0F83E1

  lemma ThirtyThreeInvertible(a: Word)
    ensures (a * 33 % U32) * INVERSE_OF_33 % U32 == a
  {
    var q, r := a * 33 / U32, a * 33 % U32;
    assert r == a * 33 - q * U32;
    assert 33 * INVERSE_OF_33 == 8 * U32 + 1;
    var m := 8 * a - q * INVERSE_OF_33;
    assert r * INVERSE_OF_33 == a + m * U32;
    Shifted(a, m);
  }

  lemma Shifted(a: Word, m: int)
    ensures (a + m * U32) % U32 == a
  {
  }

  lemma SumStepInjective(a: Word, b: Word, x: Byte)
    requires SumStep(a, x) == SumStep(b, x)
    ensures a == b
  {
    XorInjective(a * 33 % U32, b * 33 % U32, x);
    ThirtyThreeInvertible(a);
    ThirtyThreeInvertible(b);
  }

  lemma {:induction false} SumInjective(a: Word, b: Word, bytes: seq<Byte>)
    requires SumFrom(a, bytes) == SumFrom(b, bytes)
    ensures a == b
    decreases |bytes|
  {
    if bytes != [] {
      SumInjective(SumStep(a, bytes[0]), SumStep(b, bytes[0]), bytes[1..]);
      SumStepInjective(a, b, bytes[0]);
    }
  }

  /** Changing exactly one byte always changes the checksum. */
  lemma {:induction false} OneByteDetected(sum: Word, a: seq<Byte>, i: nat, x: Byte)
    requires i < |a| && x != a[i]
    ensures SumFrom(sum, a[i := x]) != SumFrom(sum, a)
    decreases |a|
  {
    var b := a[i := x];
    if i == 0 {
      assert b[1..] == a[1..];
      if SumFrom(sum, b) == SumFrom(sum, a) {
        SumInjective(SumStep(sum, x), SumStep(sum, a[0]), a[1..]);
        XorSymmetric(sum * 33 % U32, x);
        XorSymmetric(sum * 33 % U32, a[0]);
        XorInjective(x, a[0], sum * 33 % U32);
      }
    } else {
      assert b[1..] == a[1..][i - 1 := x];
      OneByteDetected(SumStep(sum, a[0]), a[1..], i - 1, x);
    }
  }

  lemma {:induction false} SumConcat(sum: Word, a: seq<Byte>, b: seq<Byte>)
    ensures SumFrom(sum, a + b) == SumFrom(SumFrom(sum, a), b)
    decreases |a|
  {
    if a == [] {
      assert a + b == b;
    } else {
      assert (a + b)[1..] == a[1..] + b;
      SumConcat(SumStep(sum, a[0]), a[1..], b);
    }
  }

  /** Exactly when a change goes unnoticed: strings that agree after position `j` have equal checksums if
      and only if the sums up to and including `j` are equal. */
  lemma UnnoticedIffSumsMeet(sum: Word, a: seq<Byte>, b: seq<Byte>, j: nat)
    requires |a| == |b| && j < |a| && a[j + 1..] == b[j + 1..]
    ensures SumFrom(sum, a) == SumFrom(sum, b) <==> SumFrom(sum, a[..j + 1]) == SumFrom(sum, b[..j + 1])
  {
    assert a == a[..j + 1] + a[j + 1..] && b == b[..j + 1] + b[j + 1..];
    SumConcat(sum, a[..j + 1], a[j + 1..]);
    SumConcat(sum, b[..j + 1], b[j + 1..]);
    if SumFrom(sum, a) == SumFrom(sum, b) {
      SumInjective(SumFrom(sum, a[..j + 1]), SumFrom(sum, b[..j + 1]), a[j + 1..]);
    }
  }

  // ---- What the checksum is ----

  /** Bit for bit: each byte is combined by exclusive-or with 33 times the checksum so far, modulo 2^32. */
  lemma ChecksumBits(bytes: seq<Byte>, b: Byte, k: nat)
    requires k < 32
    ensures Checksum([]) == 0
    ensures Bit(Checksum(bytes + [b]), k) == (Bit(33 * Checksum(bytes) % U32, k) != (k < 8 && Bit(b, k)))
  {
    var last: seq<Byte> := [b];
    assert last[1..] == [];
    SumConcat(0, bytes, last);
    assert SumFrom(Checksum(bytes), last) == SumFrom(SumStep(Checksum(bytes), b), []);
    BitXor(33 * Checksum(bytes) % U32, b, k);
    Pow2Values();
    if k >= 8 {
      BitPastTop(b, 8, k);
    }
  }

  // ---- Two changed bytes can cancel ----

  lemma {:induction false} XorWithZero(a: nat)
    ensures XorNat(a, 0) == a
  {
    if a > 0 {
      XorWithZero(a / 2);
    }
  }

  lemma {:induction false} SelfXor(a: nat)
    ensures XorNat(a, a) == 0
  {
    if a > 0 {
      SelfXor(a / 2);
    }
  }

  /** Exclusive-or with a number below 2^n leaves what is above it alone. */
  lemma {:induction false} XorLow(h: nat, a: nat, b: nat, n: nat)
    requires a < Pow2(n) && b < Pow2(n)
    ensures XorNat(h * Pow2(n) + a, b) == h * Pow2(n) + XorNat(a, b)
    decreases n
  {
    if n == 0 {
      XorWithZero(h);
    } else {
      assert h * Pow2(n) == 2 * (h * Pow2(n - 1));
      assert (h * Pow2(n) + a) / 2 == h * Pow2(n - 1) + a / 2;
      XorLow(h, a / 2, b / 2, n - 1);
    }
  }

  lemma XorByte(h: nat, a: Byte, b: Byte)
    ensures XorNat(256 * h + a, b) == 256 * h + XorNat(a, b)
  {
    Pow2Values();
    XorLow(h, a, b, 8);
  }

  /** The byte that differs in the lowest bit. */
  function Neighbour(x: Byte): Byte {
    if x % 2 == 0 then x + 1 else x - 1
  }

  lemma NeighbourXor(x: Byte)
    ensures XorNat(x, Neighbour(x)) == 1
  {
    SelfXor(x / 2);
  }

  lemma TimesThirtyThree(h: nat)
    requires 256 * h < U32
    ensures (256 * h) * 33 % U32 % 256 == 0
    ensures (256 * h + 1) * 33 % U32 == (256 * h) * 33 % U32 + 33
  {
    var m := 33 * h % 0x100_0000;
    var q := 33 * h / 0x100_0000;
    assert 256 * h * 33 == 256 * m + q * U32;
    assert 256 * m + 33 < U32;
    Shifted(256 * m, q);
    Shifted(256 * m + 33, q);
  }

  /** Whatever precedes them, there are two bytes that can be replaced by two others unnoticed. */
  lemma TwoBytesCancel(sum: Word) returns (x: Byte)
    ensures SumFrom(sum, [x, 0]) == SumFrom(sum, [Neighbour(x), 33])
  {
    var v := sum * 33 % U32;
    x := v % 256;
    var h := v / 256;
    XorByte(h, x, x);
    SelfXor(x);
    XorByte(h, x, Neighbour(x));
    NeighbourXor(x);
    assert SumStep(sum, x) == 256 * h && SumStep(sum, Neighbour(x)) == 256 * h + 1;
    TimesThirtyThree(h);
    var m := (256 * h) * 33 % U32;
    assert m == 256 * (m / 256);
    XorByte(m / 256, 0, 0);
    XorByte(m / 256, 33, 33);
    SelfXor(0);
    SelfXor(33);
    assert SumStep(256 * h, 0) == m == SumStep(256 * h + 1, 33);
    TwoSteps(sum, x, 0);
    TwoSteps(sum, Neighbour(x), 33);
  }

  lemma TwoSteps(sum: Word, x: Byte, y: Byte)
    ensures SumFrom(sum, [x, y]) == SumStep(SumStep(sum, x), y)
  {
    var xy: seq<Byte>, last: seq<Byte> := [x, y], [y];
    assert xy[1..] == last && last[1..] == [];
    assert SumFrom(sum, xy) == SumFrom(SumStep(sum, x), last);
    assert SumFrom(SumStep(sum, x), last) == SumFrom(SumStep(SumStep(sum, x), y), []);
  }
}
