/**
  Why two changed bits, however far apart within a stored record, never leave the register the same.

  A lone one bit in the register must not come back to itself while zeros are fed. The register is known
  after every 32 zeros, and 31 zeros more could only shift a lone bit to the front.
*/
module TwoBits {
  import opened Gf2
  import opened GoodFcs
  import opened LoneBit

  const CLEAR: Octet := Octet(false, false, false, false, false, false, false, false)

  // ---- It does not come back ----

  /** The register with only bit `i` set. */
  function Unit(i: nat): (r: seq<bool>)
    ensures |r| == 32
  {
    seq(32, k => k == i)
  }

  lemma UnitShifts(i: nat)
    requires i < 32
    ensures Feed(Unit(i), Zeros(i)) == Unit(0)
  {
    ZerosShift(Unit(i), i);
    assert Unit(i)[i..] + Zeros(i) == Unit(0);
  }

  lemma FirstUnit()
    ensures Row(AtBlock(0)) == Unit(0)
  {
  }

  lemma ClearByte(s: seq<bool>, i: nat, o: Octet)
    requires i + 8 <= |s| && s[i..i + 8] == List(o) && forall k :: i <= k < i + 8 ==> !s[k]
    ensures o == CLEAR
  {
    ListAt(s, i, o);
  }

  /** A lone bit is not in two bytes. */
  lemma NotUnit(r: Register, i: nat)
    requires r.a != CLEAR && r.c != CLEAR
    ensures Row(r) != Unit(i)
  {
    RowShows(r);
    if Row(r) == Unit(i) {
      if i < 8 {
        ClearByte(Row(r), 16, r.c);
      } else {
        ClearByte(Row(r), 0, r.a);
      }
    }
  }

  lemma BlocksNotUnit(b: nat, i: nat)
    requires 0 < b <= 6
    ensures Row(AtBlock(b)) != Unit(i)
  {
    NotUnit(AtBlock(b), i);
  }

  /** Fewer than 224 zeros never bring a lone leading bit back. */
  lemma NoReturn(k: nat)
    requires 0 < k < 224
    ensures Feed(Unit(0), Zeros(k)) != Unit(0)
  {
    var b, i := k / 32, k % 32;
    assert Zeros(k) == Zeros(b * 32) + Zeros(i);
    FeedConcat(Unit(0), Zeros(b * 32), Zeros(i));
    FirstUnit();
    AfterIsFeed(AtBlock(0), b * 32);
    AfterBlocks(b, 32);
    UnitShifts(i);
    if Feed(Unit(0), Zeros(k)) == Unit(0) {
      FeedInjective(Row(AtBlock(b)), Unit(i), Zeros(i));
      if b > 0 {
        BlocksNotUnit(b, i);
      }
    }
  }

  // ---- Two changed bits ----

  predicate DifferOnlyAt(a: seq<bool>, b: seq<bool>, i: nat, j: nat) {
    |a| == |b| && forall k :: 0 <= k < |a| && k != i && k != j ==> a[k] == b[k]
  }

  /** What two strings that differ in their first bit and in bit `k` make of the same register differs by
      what the zero register makes of those two bits. */
  lemma TwoOnes(k: nat, n: nat)
    requires 0 < k < 224
    ensures Feed(Zeros(32), [true] + Zeros(k - 1) + [true] + Zeros(n)) != Zeros(32)
  {
    var lone := Feed(Unit(0), Zeros(k));
    assert Zeros(k)[0] == false && Zeros(k)[1..] == Zeros(k - 1);
    assert StepBit(Zeros(32), true) == StepBit(Unit(0), false);
    FeedOne(Zeros(32), true);
    FeedOne(lone, true);
    FeedThreeParts(Zeros(32), [true], Zeros(k - 1), [true]);
    FeedConcat(Zeros(32), [true] + Zeros(k - 1) + [true], Zeros(n));
    ZerosStay(n);
    if Feed(StepBit(lone, true), Zeros(n)) == Zeros(32) {
      FeedInjective(StepBit(lone, true), Zeros(32), Zeros(n));
      StepInvertible(lone, true);
      assert lone == Unit(0);
      NoReturn(k);
    }
  }

  lemma FeedOne(r: seq<bool>, b: bool)
    requires |r| == 32
    ensures Feed(r, [b]) == StepBit(r, b)
  {
    assert [b][1..] == [] && Feed(StepBit(r, b), []) == StepBit(r, b);
  }

  lemma ZerosStay(n: nat)
    ensures Feed(Zeros(32), Zeros(n)) == Zeros(32)
  {
    FeedLinear(Zeros(32), Zeros(32), Zeros(n), Zeros(n));
    XorSelf(Zeros(32));
    XorSelf(Zeros(n));
    XorSelf(Feed(Zeros(32), Zeros(n)));
  }

  lemma PatternOf(a: seq<bool>, b: seq<bool>, k: nat)
    requires 0 < k < |a| && DifferOnlyAt(a, b, 0, k) && a[0] != b[0] && a[k] != b[k]
    ensures Xor(a, b) == [true] + Zeros(k - 1) + [true] + Zeros(|a| - k - 1)
  {
  }

  lemma TailsDiffer(p: seq<bool>, a: seq<bool>, b: seq<bool>, k: nat)
    requires |p| == 32 && 0 < k < |a| && k < 224 && DifferOnlyAt(a, b, 0, k) && a[0] != b[0] && a[k] != b[k]
    ensures Feed(p, a) != Feed(p, b)
  {
    FeedLinear(p, p, a, b);
    XorSelf(p);
    XorSelf(Feed(p, a));
    PatternOf(a, b, k);
    TwoOnes(k, |a| - k - 1);
  }

  lemma TwoDiffer(r: seq<bool>, a: seq<bool>, b: seq<bool>, i: nat, j: nat)
    requires |r| == 32 && DifferOnlyAt(a, b, i, j) && i < j < |a| && j - i < 224 && a[i] != b[i] && a[j] != b[j]
    ensures Feed(r, a) != Feed(r, b)
  {
    assert a == a[..i] + a[i..] && b == b[..i] + b[i..] && a[..i] == b[..i];
    FeedConcat(r, a[..i], a[i..]);
    FeedConcat(r, a[..i], b[i..]);
    TailsDiffer(Feed(r, a[..i]), a[i..], b[i..], j - i);
  }

  /** A change of one bit, or of two bits fewer than 224 places apart, always changes the register. */
  lemma TwoBitsDetected(r: seq<bool>, a: seq<bool>, b: seq<bool>, i: nat, j: nat)
    requires |r| == 32 && DifferOnlyAt(a, b, i, j) && i < j < |a| && j - i < 224 && a != b
    ensures Feed(r, a) != Feed(r, b)
  {
    if a[i] != b[i] && a[j] != b[j] {
      TwoDiffer(r, a, b, i, j);
    } else if Feed(r, a) == Feed(r, b) {
      BurstDetected(r, a, b, if a[i] == b[i] then j else i);
    }
  }
}
