/** Wrapping tick counters: a counter shows true time modulo a fixed width. */
module Ticks {
  /** What unsigned subtraction of two tick counts gives. */
  function Elapsed(now: int, since: int, modulus: nat): (d: nat)
    requires modulus > 0
    ensures d < modulus
  {
    (now - since) % modulus
  }

  lemma Product(e: int, modulus: nat)
    requires modulus > 0
    ensures e >= 1 ==> e * modulus >= modulus
    ensures e <= -1 ==> e * modulus + modulus <= 0
  {
    if e >= 1 {
      assert (e - 1) * modulus >= 0;
    } else if e <= -1 {
      assert (-1 - e) * modulus >= 0;
    }
  }

  lemma RemainderUnique(x: int, q: int, r: int, modulus: nat)
    requires modulus > 0 && 0 <= r < modulus && x == q * modulus + r
    ensures x % modulus == r
  {
    var p, s := x / modulus, x % modulus;
    assert x == p * modulus + s && 0 <= s < modulus;
    assert (p - q) * modulus == p * modulus - q * modulus;
    Product(p - q, modulus);
  }

  /** The difference of two tick counts is the true distance, as long as that is less than one turn of
      the counter; in general it is the distance modulo the turn. */
  lemma ElapsedIsDistance(now: nat, since: nat, modulus: nat)
    requires modulus > 0
    ensures Elapsed(now % modulus, since % modulus, modulus) == Elapsed(now, since, modulus)
    ensures since <= now < since + modulus ==> Elapsed(now, since, modulus) == now - since
    ensures since <= now ==> Elapsed(now, since, modulus) <= now - since
  {
    var k := (now - since) / modulus;
    var r := (now - since) % modulus;
    var a, b := now / modulus, since / modulus;
    assert now == a * modulus + now % modulus && since == b * modulus + since % modulus;
    assert now - since == k * modulus + r;
    var x := now % modulus - since % modulus;
    assert x == (k - a + b) * modulus + r by {
      assert (k - a + b) * modulus == k * modulus - a * modulus + b * modulus;
    }
    RemainderUnique(x, k - a + b, r, modulus);
    Product(k, modulus);
  }

  /** After exactly one turn no time seems to have passed. */
  lemma ElapsedOfTurn(since: nat, modulus: nat)
    requires modulus > 0
    ensures Elapsed(since + modulus, since, modulus) == 0
  {
    RemainderUnique(modulus, 1, 0, modulus);
  }
}
