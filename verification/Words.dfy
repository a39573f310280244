/** Bytes and 32-bit words with the operators of the source: exclusive-or, and, shift, complement. */
module Words {
  import opened Common

  type Byte = b: nat | b < 256
  type Word = w: nat | w < U32

  function Pow2(k: nat): (r: nat)
    ensures r > 0
  {
    if k == 0 then 1 else 2 * Pow2(k - 1)
  }

  lemma Pow2Values()
    ensures Pow2(8) == 256 && Pow2(16) == 0x1_0000 && Pow2(24) == 0x100_0000 && Pow2(32) == U32
  {
    assert Pow2(4) == 16 && Pow2(8) == 16 * Pow2(4) && Pow2(12) == 16 * Pow2(8);
    assert Pow2(16) == 16 * Pow2(12) && Pow2(20) == 16 * Pow2(16) && Pow2(24) == 16 * Pow2(20);
    assert Pow2(28) == 16 * Pow2(24) && Pow2(32) == 16 * Pow2(28);
  }

  // ---- Operators, bit by bit ----

  function XorNat(a: nat, b: nat): nat
    decreases a + b
  {
    if a == 0 && b == 0 then 0 else 2 * XorNat(a / 2, b / 2) + (if a % 2 != b % 2 then 1 else 0)
  }

  function AndNat(a: nat, b: nat): nat {
    if a == 0 then 0 else 2 * AndNat(a / 2, b / 2) + (if a % 2 == 1 && b % 2 == 1 then 1 else 0)
  }

  lemma {:induction false} OperatorBounds(a: nat, b: nat, k: nat)
    requires a < Pow2(k) && b < Pow2(k)
    ensures XorNat(a, b) < Pow2(k) && AndNat(a, b) < Pow2(k)
  {
    if k > 0 {
      OperatorBounds(a / 2, b / 2, k - 1);
    }
  }

  function Xor(a: Word, b: Word): Word {
    Pow2Values();
    OperatorBounds(a, b, 32);
    XorNat(a, b)
  }

  function And(a: Word, b: Word): Word {
    Pow2Values();
    OperatorBounds(a, b, 32);
    AndNat(a, b)
  }

  /** 32-bit complement. */
  function Not(a: Word): Word {
    U32 - 1 - a
  }

  /** 32-bit subtraction from zero. */
  function Negate(a: Word): Word {
    (U32 - a) % U32
  }

  // ---- Words as bit strings ----

  /** Bit `k` of a number, counting from the lowest. */
  function Bit(w: nat, k: nat): bool {
    if k == 0 then w % 2 == 1 else Bit(w / 2, k - 1)
  }

  /** The low `k` bits, lowest first. */
  function Bits(w: nat, k: nat): (r: seq<bool>)
    ensures |r| == k
  {
    seq(k, i requires 0 <= i < k => Bit(w, i))
  }

  lemma {:induction false} BitXor(a: nat, b: nat, k: nat)
    ensures Bit(XorNat(a, b), k) == (Bit(a, k) != Bit(b, k))
    decreases k
  {
    assert XorNat(a, b) / 2 == XorNat(a / 2, b / 2) && XorNat(a, b) % 2 == if a % 2 != b % 2 then 1 else 0;
    if k > 0 {
      BitXor(a / 2, b / 2, k - 1);
    }
  }

  lemma {:induction false} BitAnd(a: nat, b: nat, k: nat)
    ensures Bit(AndNat(a, b), k) == (Bit(a, k) && Bit(b, k))
    decreases k
  {
    assert AndNat(a, b) / 2 == AndNat(a / 2, b / 2) && AndNat(a, b) % 2 == if a % 2 == 1 && b % 2 == 1 then 1 else 0;
    if k > 0 {
      BitAnd(a / 2, b / 2, k - 1);
    }
  }

  lemma {:induction false} BitNot(w: nat, n: nat, k: nat)
    requires w < Pow2(n) && k < n
    ensures Bit(Pow2(n) - 1 - w, k) == !Bit(w, k)
    decreases k
  {
    var c := Pow2(n) - 1 - w;
    assert c % 2 == 1 - w % 2 && c / 2 == Pow2(n - 1) - 1 - w / 2;
    if k > 0 {
      BitNot(w / 2, n - 1, k - 1);
    }
  }

  lemma {:induction false} BitPastTop(w: nat, n: nat, k: nat)
    requires w < Pow2(n) && n <= k
    ensures !Bit(w, k)
    decreases k
  {
    if k > 0 {
      BitPastTop(if n == 0 then 0 else w / 2, if n == 0 then 0 else n - 1, k - 1);
    }
  }

  lemma {:induction false} BitsInjective(a: nat, b: nat, k: nat)
    requires a < Pow2(k) && b < Pow2(k) && Bits(a, k) == Bits(b, k)
    ensures a == b
    decreases k
  {
    if k > 0 {
      assert Bits(a, k)[0] == Bits(b, k)[0];
      assert a % 2 == b % 2;
      forall i | 0 <= i < k - 1 ensures Bit(a / 2, i) == Bit(b / 2, i) {
        assert Bits(a, k)[i + 1] == Bits(b, k)[i + 1];
      }
      BitsInjective(a / 2, b / 2, k - 1);
    }
  }

  lemma BitShift8(w: nat, k: nat)
    ensures Bit(w / 256, k) == Bit(w, k + 8)
  {
    var w2, w4, w6 := w / 2 / 2, w / 2 / 2 / 2 / 2, w / 2 / 2 / 2 / 2 / 2 / 2;
    assert Bit(w, k + 8) == Bit(w / 2, k + 7) == Bit(w2, k + 6);
    assert Bit(w2, k + 6) == Bit(w2 / 2, k + 5) == Bit(w4, k + 4);
    assert Bit(w4, k + 4) == Bit(w4 / 2, k + 3) == Bit(w6, k + 2);
    assert Bit(w6, k + 2) == Bit(w6 / 2, k + 1) == Bit(w6 / 2 / 2, k);
    assert w / 2 / 2 / 2 / 2 / 2 / 2 / 2 / 2 == w / 256;
  }

  /** Words are equal when their bits are. */
  lemma WordInjective(a: Word, b: Word)
    requires Bits(a, 32) == Bits(b, 32)
    ensures a == b
  {
    Pow2Values();
    BitsInjective(a, b, 32);
  }

  // ---- Words in memory ----

  /** Byte `i` of a number, counting from the lowest. */
  function ByteAt(w: nat, i: nat): Byte {
    if i == 0 then w % 256 else ByteAt(w / 256, i - 1)
  }

  /** The low `k` bytes of a number as they lie in memory, lowest first. */
  function LittleEndian(w: nat, k: nat): (r: seq<Byte>)
    ensures |r| == k
  {
    seq(k, i requires 0 <= i < k => ByteAt(w, i))
  }

  lemma FourBytes(w: Word)
    ensures LittleEndian(w, 4) == [w % 256, w / 256 % 256, w / 0x1_0000 % 256, w / 0x100_0000]
  {
    var w1, w2, w3 := w / 256, w / 256 / 256, w / 256 / 256 / 256;
    assert w2 == w / 0x1_0000 && w3 == w / 0x100_0000 && w3 % 256 == w3;
    assert ByteAt(w, 1) == ByteAt(w1, 0) && ByteAt(w, 2) == ByteAt(w1, 1) == ByteAt(w2, 0);
    assert ByteAt(w, 3) == ByteAt(w1, 2) == ByteAt(w2, 1) == ByteAt(w3, 0);
  }
}
