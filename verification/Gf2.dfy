/**
  Polynomials over GF(2) as bit strings, and the shift register that divides by the CRC-32 generator.
  A string lists coefficients from the highest power down; a register lists its 32 bits from the one
  about to be shifted out, which is the highest power too.
*/
module Gf2 {

  /** The CRC-32 generator below its leading term: x^26 + x^23 + x^22 + x^16 + x^12 + x^11 + x^10 +
      x^8 + x^7 + x^5 + x^4 + x^2 + x + 1. */
  const TAPS: seq<bool> := [false, false, false, false, false, true, false, false]
                         + [true, true, false, false, false, false, false, true]
                         + [false, false, false, true, true, true, false, true]
                         + [true, false, true, true, false, true, true, true]

  /** The generator itself, from x^32 down. */
  const GENERATOR: seq<bool> := [true] + TAPS

  function Zeros(n: nat): (r: seq<bool>)
    ensures |r| == n
  {
    seq(n, i => false)
  }

  function Ones(n: nat): (r: seq<bool>)
    ensures |r| == n
  {
    seq(n, i => true)
  }

  function Xor(a: seq<bool>, b: seq<bool>): (r: seq<bool>)
    requires |a| == |b|
    ensures |r| == |a|
  {
    seq(|a|, i requires 0 <= i < |a| => a[i] != b[i])
  }

  // ---- Division ----

  /** The product q(x) * G(x), by shifting and adding. */
  function Times(q: seq<bool>): (r: seq<bool>)
    ensures |r| == |q| + 32
  {
    if q == [] then Zeros(32)
    else Xor(if q[0] then GENERATOR + Zeros(|q| - 1) else Zeros(|q| + 32), [false] + Times(q[1..]))
  }

  /** One step of long division: cancel the leading coefficient and drop it. */
  function Reduce(p: seq<bool>): (r: seq<bool>)
    requires |p| > 32
    ensures |r| == |p| - 1
  {
    if p[0] then Xor(p, GENERATOR + Zeros(|p| - 33))[1..] else p[1..]
  }

  function Quotient(p: seq<bool>): (q: seq<bool>)
    requires |p| >= 32
    ensures |q| == |p| - 32
    decreases |p|
  {
    if |p| == 32 then [] else [p[0]] + Quotient(Reduce(p))
  }

  function Remainder(p: seq<bool>): (r: seq<bool>)
    requires |p| >= 32
    ensures |r| == 32
    decreases |p|
  {
    if |p| == 32 then p else Remainder(Reduce(p))
  }

  /** q(x) * G(x) + r(x), with r of degree below 32. */
  function Recombine(q: seq<bool>, r: seq<bool>): (p: seq<bool>)
    requires |r| == 32
    ensures |p| == |q| + 32
  {
    Xor(Times(q), Zeros(|q|) + r)
  }

  lemma RecombineStep(q: seq<bool>, r: seq<bool>)
    requires |r| == 32 && q != []
    ensures Recombine(q, r)[0] == q[0]
    ensures Reduce(Recombine(q, r)) == Recombine(q[1..], r)
  {
    var p, rest := Recombine(q, r), Recombine(q[1..], r);
    assert |p| == |rest| + 1;
    forall k | 0 <= k < |rest| ensures Reduce(p)[k] == rest[k] {
      assert (Zeros(|q|) + r)[k + 1] == (Zeros(|q| - 1) + r)[k];
      assert ([false] + Times(q[1..]))[k + 1] == Times(q[1..])[k];
    }
  }

  lemma {:induction false} DivisionExists(p: seq<bool>)
    requires |p| >= 32
    ensures p == Recombine(Quotient(p), Remainder(p))
    decreases |p|
  {
    if |p| > 32 {
      DivisionExists(Reduce(p));
      var q, r := Quotient(p), Remainder(p);
      assert q[1..] == Quotient(Reduce(p));
      RecombineStep(q, r);
      var p' := Recombine(q, r);
      assert Reduce(p') == Reduce(p) && p'[0] == p[0];
      forall k | 0 <= k < |p| ensures p'[k] == p[k] {
        if k > 0 {
          assert Reduce(p')[k - 1] == Reduce(p)[k - 1];
        }
      }
    }
  }

  /** Long division finds the one quotient and the one remainder of degree below 32 there are. */
  lemma {:induction false} DivisionUnique(p: seq<bool>, q: seq<bool>, r: seq<bool>)
    requires |p| >= 32 && |q| == |p| - 32 && |r| == 32
    ensures p == Recombine(q, r) <==> q == Quotient(p) && r == Remainder(p)
    decreases |p|
  {
    DivisionExists(p);
    if p == Recombine(q, r) {
      if q == [] {
        assert p == r;
      } else {
        RecombineStep(q, r);
        DivisionUnique(Reduce(p), q[1..], r);
        assert q == [q[0]] + q[1..];
      }
    }
  }

  // ---- The shift register ----

  /** Shift out the leading bit, and add the generator if it differs from the incoming bit. */
  function StepBit(r: seq<bool>, b: bool): (s: seq<bool>)
    requires |r| == 32
    ensures |s| == 32
  {
    Xor(r[1..] + [false], if r[0] != b then TAPS else Zeros(32))
  }

  function Feed(r: seq<bool>, bits: seq<bool>): (s: seq<bool>)
    requires |r| == 32
    ensures |s| == 32
    decreases |bits|
  {
    if bits == [] then r else Feed(StepBit(r, bits[0]), bits[1..])
  }

  lemma {:induction false} FeedConcat(r: seq<bool>, a: seq<bool>, b: seq<bool>)
    requires |r| == 32
    ensures Feed(r, a + b) == Feed(Feed(r, a), b)
    decreases |a|
  {
    if a == [] {
      assert a + b == b;
    } else {
      assert (a + b)[1..] == a[1..] + b;
      FeedConcat(StepBit(r, a[0]), a[1..], b);
    }
  }

  lemma StepLinear(r: seq<bool>, s: seq<bool>, a: bool, b: bool)
    requires |r| == |s| == 32
    ensures StepBit(Xor(r, s), a != b) == Xor(StepBit(r, a), StepBit(s, b))
  {
    assert Xor(r, s)[1..] + [false] == Xor(r[1..] + [false], s[1..] + [false]);
  }

  lemma {:induction false} FeedLinear(r: seq<bool>, s: seq<bool>, a: seq<bool>, b: seq<bool>)
    requires |r| == |s| == 32 && |a| == |b|
    ensures Feed(Xor(r, s), Xor(a, b)) == Xor(Feed(r, a), Feed(s, b))
    decreases |a|
  {
    if a != [] {
      StepLinear(r, s, a[0], b[0]);
      assert Xor(a, b)[1..] == Xor(a[1..], b[1..]);
      FeedLinear(StepBit(r, a[0]), StepBit(s, b[0]), a[1..], b[1..]);
    }
  }

  /** The last bit of the result tells whether the generator was added. */
  lemma StepInvertible(r: seq<bool>, b: bool)
    requires |r| == 32
    ensures StepBit(r, b)[31] == (r[0] != b)
    ensures forall k :: 1 <= k < 32 ==> r[k] == (StepBit(r, b)[k - 1] != (StepBit(r, b)[31] && TAPS[k - 1]))
  {
  }

  lemma {:induction false} FeedInjective(r: seq<bool>, s: seq<bool>, bits: seq<bool>)
    requires |r| == |s| == 32 && Feed(r, bits) == Feed(s, bits)
    ensures r == s
    decreases |bits|
  {
    if bits != [] {
      FeedInjective(StepBit(r, bits[0]), StepBit(s, bits[0]), bits[1..]);
      StepInvertible(r, bits[0]);
      StepInvertible(s, bits[0]);
      assert r[0] == s[0];
    }
  }

  /** Adding up to 32 bits into the register at once and then shifting equals feeding them. */
  lemma {:induction false} AtOnce(r: seq<bool>, m: seq<bool>)
    requires |r| == 32 && |m| <= 32
    ensures Feed(Xor(r, m + Zeros(32 - |m|)), Zeros(|m|)) == Feed(r, m)
    decreases |m|
  {
    var x := m + Zeros(32 - |m|);
    if m == [] {
      assert Xor(r, x) == r;
    } else {
      assert Zeros(|m|)[1..] == Zeros(|m| - 1);
      var next := m[1..] + Zeros(32 - |m[1..]|);
      assert StepBit(Xor(r, x), false) == Xor(StepBit(r, m[0]), next) by {
        assert x[1..] + [false] == next;
      }
      AtOnce(StepBit(r, m[0]), m[1..]);
    }
  }

  /** A register whose leading bits are all zero just shifts. */
  lemma {:induction false} ZerosShift(r: seq<bool>, k: nat)
    requires |r| == 32 && k <= 32 && forall i :: 0 <= i < k ==> !r[i]
    ensures Feed(r, Zeros(k)) == r[k..] + Zeros(k)
    decreases k
  {
    if k > 0 {
      assert Zeros(k)[1..] == Zeros(k - 1);
      assert StepBit(r, false) == r[1..] + [false];
      ZerosShift(r[1..] + [false], k - 1);
      assert (r[1..] + [false])[k - 1..] + Zeros(k - 1) == r[k..] + Zeros(k);
    }
  }

  // ---- The register computes the remainder ----

  /** The message followed by 32 zeros, with the initial register added into its leading coefficients. */
  function Dividend(r: seq<bool>, m: seq<bool>): (p: seq<bool>)
    requires |r| == 32
    ensures |p| == |m| + 32
  {
    Xor(r + Zeros(|m|), m + Zeros(32))
  }

  lemma DividendStep(r: seq<bool>, m: seq<bool>)
    requires |r| == 32 && m != []
    ensures Reduce(Dividend(r, m)) == Dividend(StepBit(r, m[0]), m[1..])
  {
    var p, next := Dividend(r, m), Dividend(StepBit(r, m[0]), m[1..]);
    forall k | 0 <= k < |next| ensures Reduce(p)[k] == next[k] {
      assert (m + Zeros(32))[k + 1] == (m[1..] + Zeros(32))[k];
      if k < 32 {
        assert (r[1..] + [false])[k] == if k < 31 then r[k + 1] else false;
      }
    }
  }

  /** For every initial register and every message, the register ends as the remainder of dividing by
      the generator. */
  lemma {:induction false} RegisterIsRemainder(r: seq<bool>, m: seq<bool>)
    requires |r| == 32
    ensures Feed(r, m) == Remainder(Dividend(r, m))
    decreases |m|
  {
    if m == [] {
      assert Dividend(r, m) == r;
    } else {
      DividendStep(r, m);
      RegisterIsRemainder(StepBit(r, m[0]), m[1..]);
    }
  }

  // ---- Bursts ----

  /** A register that at most 32 bits bring to zero consists of exactly those bits. */
  lemma {:induction false} ZeroWindow(r: seq<bool>, bits: seq<bool>)
    requires |r| == 32 && |bits| <= 32 && Feed(r, bits) == Zeros(32)
    ensures r == bits + Zeros(32 - |bits|)
    decreases |bits|
  {
    if bits != [] {
      ZeroWindow(StepBit(r, bits[0]), bits[1..]);
      StepInvertible(r, bits[0]);
      assert StepBit(r, bits[0])[31] == false;
      forall k | 0 <= k < 32 ensures r[k] == (bits + Zeros(32 - |bits|))[k] {
        if k > 0 {
          assert r[k] == StepBit(r, bits[0])[k - 1];
        }
      }
    }
  }

  /** Two strings of the same length agree except, at most, within 32 bits from bit `i` on. */
  predicate DifferInWindow(a: seq<bool>, b: seq<bool>, i: nat) {
    |a| == |b| && forall k :: 0 <= k < |a| && !(i <= k < i + 32) ==> a[k] == b[k]
  }

  lemma XorSelf(a: seq<bool>)
    ensures Xor(a, a) == Zeros(|a|)
  {
  }

  /** Two windows of at most 32 bits that take a register to the same place are the same window. */
  lemma WindowInjective(p: seq<bool>, a: seq<bool>, b: seq<bool>)
    requires |p| == 32 && |a| == |b| <= 32 && Feed(p, a) == Feed(p, b)
    ensures a == b
  {
    var d := Xor(a, b);
    FeedLinear(p, p, a, b);
    XorSelf(p);
    XorSelf(Feed(p, a));
    ZeroWindow(Zeros(32), d);
    forall k | 0 <= k < |a| ensures a[k] == b[k] {
      assert Zeros(32)[k] == (d + Zeros(32 - |d|))[k] == d[k];
    }
  }

  lemma FeedThreeParts(r: seq<bool>, a: seq<bool>, b: seq<bool>, c: seq<bool>)
    requires |r| == 32
    ensures Feed(r, a + b + c) == Feed(Feed(Feed(r, a), b), c)
  {
    FeedConcat(r, a + b, c);
    FeedConcat(r, a, b);
  }

  lemma MiddleDetected(r: seq<bool>, front: seq<bool>, a: seq<bool>, b: seq<bool>, back: seq<bool>)
    requires |r| == 32 && |a| == |b| <= 32 && Feed(r, front + a + back) == Feed(r, front + b + back)
    ensures a == b
  {
    FeedThreeParts(r, front, a, back);
    FeedThreeParts(r, front, b, back);
    var p := Feed(r, front);
    FeedInjective(Feed(p, a), Feed(p, b), back);
    WindowInjective(p, a, b);
  }

  lemma Parts(a: seq<bool>, i: nat, j: nat)
    requires i <= j <= |a|
    ensures a == a[..i] + a[i..j] + a[j..]
  {
  }

  lemma SameOutside(a: seq<bool>, b: seq<bool>, i: nat, j: nat)
    requires DifferInWindow(a, b, i) && i <= j <= |a| && (j == i + 32 || j == |a|)
    ensures a[..i] == b[..i] && a[j..] == b[j..]
  {
  }

  /** A burst: a change confined to 32 consecutive bits always changes the register. */
  lemma BurstDetected(r: seq<bool>, a: seq<bool>, b: seq<bool>, i: nat)
    requires |r| == 32 && DifferInWindow(a, b, i) && Feed(r, a) == Feed(r, b)
    ensures a == b
  {
    if i <= |a| {
      var j := if i + 32 <= |a| then i + 32 else |a|;
      SameOutside(a, b, i, j);
      Parts(a, i, j);
      Parts(b, i, j);
      MiddleDetected(r, a[..i], a[i..j], b[i..j], a[j..]);
    }
  }
}
