/** The register that a message followed by its own check value leaves, evaluated. */
module GoodFcs {
  import opened Gf2

  /** The 32 register bits as four groups of eight, in the order in which they are shifted out. */
  datatype Octet = Octet(b0: bool, b1: bool, b2: bool, b3: bool, b4: bool, b5: bool, b6: bool, b7: bool)

  datatype Register = Register(a: Octet, b: Octet, c: Octet, d: Octet)

  function List(o: Octet): (s: seq<bool>)
    ensures |s| == 8
  {
    [o.b0, o.b1, o.b2, o.b3, o.b4, o.b5, o.b6, o.b7]
  }

  function Row(r: Register): (s: seq<bool>)
    ensures |s| == 32
  {
    List(r.a) + List(r.b) + List(r.c) + List(r.d)
  }

  /** One step on a zero bit. */
  function Next(r: Register): Register {
    if r.a.b0 then
      Register(Octet(r.a.b1, r.a.b2, r.a.b3, r.a.b4, r.a.b5, !r.a.b6, r.a.b7, r.b.b0),
               Octet(!r.b.b1, !r.b.b2, r.b.b3, r.b.b4, r.b.b5, r.b.b6, r.b.b7, !r.c.b0),
               Octet(r.c.b1, r.c.b2, r.c.b3, !r.c.b4, !r.c.b5, !r.c.b6, r.c.b7, !r.d.b0),
               Octet(!r.d.b1, r.d.b2, !r.d.b3, !r.d.b4, r.d.b5, !r.d.b6, !r.d.b7, true))
    else
      Register(Octet(r.a.b1, r.a.b2, r.a.b3, r.a.b4, r.a.b5, r.a.b6, r.a.b7, r.b.b0),
               Octet(r.b.b1, r.b.b2, r.b.b3, r.b.b4, r.b.b5, r.b.b6, r.b.b7, r.c.b0),
               Octet(r.c.b1, r.c.b2, r.c.b3, r.c.b4, r.c.b5, r.c.b6, r.c.b7, r.d.b0),
               Octet(r.d.b1, r.d.b2, r.d.b3, r.d.b4, r.d.b5, r.d.b6, r.d.b7, false))
  }

  function After(r: Register, k: nat): Register
    decreases k
  {
    if k == 0 then r else After(Next(r), k - 1)
  }

  // ---- The steps are those of the shift register ----

  /** Bit `k` of the register after a step on a zero bit. */
  function Moved(s: seq<bool>, taps: seq<bool>, k: nat): bool
    requires |s| == |taps| == 32 && k < 32
  {
    (k < 31 && s[k + 1]) != (s[0] && taps[k])
  }

  predicate Moves(s: seq<bool>, t: seq<bool>, taps: seq<bool>) {
    |s| == |t| == |taps| == 32 && forall k :: 0 <= k < 32 ==> t[k] == Moved(s, taps, k)
  }

  predicate TapsAre(taps: seq<bool>)
    requires |taps| == 32
  {
    && !taps[0] && !taps[1] && !taps[2] && !taps[3] && !taps[4] && taps[5] && !taps[6] && !taps[7]
    && taps[8] && taps[9] && !taps[10] && !taps[11] && !taps[12] && !taps[13] && !taps[14] && taps[15]
    && !taps[16] && !taps[17] && !taps[18] && taps[19] && taps[20] && taps[21] && !taps[22] && taps[23]
    && taps[24] && !taps[25] && taps[26] && taps[27] && !taps[28] && taps[29] && taps[30] && taps[31]
  }

  lemma TapsOk()
    ensures TapsAre(TAPS)
  {
  }

  predicate Shows(s: seq<bool>, r: Register)
    requires |s| == 32
  {
    s[0..8] == List(r.a) && s[8..16] == List(r.b) && s[16..24] == List(r.c) && s[24..32] == List(r.d)
  }

  lemma ListAt(s: seq<bool>, i: nat, o: Octet)
    requires i + 8 <= |s| && s[i..i + 8] == List(o)
    ensures s[i] == o.b0 && s[i + 1] == o.b1 && s[i + 2] == o.b2 && s[i + 3] == o.b3
    ensures s[i + 4] == o.b4 && s[i + 5] == o.b5 && s[i + 6] == o.b6 && s[i + 7] == o.b7
  {
    var t := s[i..i + 8];
    assert t[0] == s[i] && t[1] == s[i + 1] && t[2] == s[i + 2] && t[3] == s[i + 3];
    assert t[4] == s[i + 4] && t[5] == s[i + 5] && t[6] == s[i + 6] && t[7] == s[i + 7];
  }

  lemma ListIs(s: seq<bool>, i: nat, o: Octet)
    requires i + 8 <= |s|
    requires s[i] == o.b0 && s[i + 1] == o.b1 && s[i + 2] == o.b2 && s[i + 3] == o.b3
    requires s[i + 4] == o.b4 && s[i + 5] == o.b5 && s[i + 6] == o.b6 && s[i + 7] == o.b7
    ensures s[i..i + 8] == List(o)
  {
  }

  lemma NextA(s: seq<bool>, t: seq<bool>, taps: seq<bool>, r: Register)
    requires Moves(s, t, taps) && TapsAre(taps) && Shows(s, r)
    ensures t[0..8] == List(Next(r).a)
  {
    ListAt(s, 0, r.a);
    ListAt(s, 8, r.b);
    assert t[0] == Moved(s, taps, 0) && t[1] == Moved(s, taps, 1) && t[2] == Moved(s, taps, 2)
           && t[3] == Moved(s, taps, 3);
    assert t[4] == Moved(s, taps, 4) && t[5] == Moved(s, taps, 5) && t[6] == Moved(s, taps, 6)
           && t[7] == Moved(s, taps, 7);
    ListIs(t, 0, Next(r).a);
  }

  lemma NextB(s: seq<bool>, t: seq<bool>, taps: seq<bool>, r: Register)
    requires Moves(s, t, taps) && TapsAre(taps) && Shows(s, r)
    ensures t[8..16] == List(Next(r).b)
  {
    ListAt(s, 0, r.a);
    ListAt(s, 8, r.b);
    ListAt(s, 16, r.c);
    assert t[8] == Moved(s, taps, 8) && t[9] == Moved(s, taps, 9) && t[10] == Moved(s, taps, 10)
           && t[11] == Moved(s, taps, 11);
    assert t[12] == Moved(s, taps, 12) && t[13] == Moved(s, taps, 13) && t[14] == Moved(s, taps, 14)
           && t[15] == Moved(s, taps, 15);
    ListIs(t, 8, Next(r).b);
  }

  lemma NextC(s: seq<bool>, t: seq<bool>, taps: seq<bool>, r: Register)
    requires Moves(s, t, taps) && TapsAre(taps) && Shows(s, r)
    ensures t[16..24] == List(Next(r).c)
  {
    ListAt(s, 0, r.a);
    ListAt(s, 16, r.c);
    ListAt(s, 24, r.d);
    assert t[16] == Moved(s, taps, 16) && t[17] == Moved(s, taps, 17) && t[18] == Moved(s, taps, 18)
           && t[19] == Moved(s, taps, 19);
    assert t[20] == Moved(s, taps, 20) && t[21] == Moved(s, taps, 21) && t[22] == Moved(s, taps, 22)
           && t[23] == Moved(s, taps, 23);
    ListIs(t, 16, Next(r).c);
  }

  lemma NextD(s: seq<bool>, t: seq<bool>, taps: seq<bool>, r: Register)
    requires Moves(s, t, taps) && TapsAre(taps) && Shows(s, r)
    ensures t[24..32] == List(Next(r).d)
  {
    ListAt(s, 0, r.a);
    ListAt(s, 24, r.d);
    assert t[24] == Moved(s, taps, 24) && t[25] == Moved(s, taps, 25) && t[26] == Moved(s, taps, 26)
           && t[27] == Moved(s, taps, 27);
    assert t[28] == Moved(s, taps, 28) && t[29] == Moved(s, taps, 29) && t[30] == Moved(s, taps, 30)
           && t[31] == Moved(s, taps, 31);
    ListIs(t, 24, Next(r).d);
  }

  lemma NextShown(s: seq<bool>, t: seq<bool>, taps: seq<bool>, r: Register)
    requires Moves(s, t, taps) && TapsAre(taps) && Shows(s, r)
    ensures t == Row(Next(r))
  {
    NextA(s, t, taps, r);
    NextB(s, t, taps, r);
    NextC(s, t, taps, r);
    NextD(s, t, taps, r);
    assert t == t[0..8] + t[8..16] + t[16..24] + t[24..32];
  }

  lemma RowShows(r: Register)
    ensures Shows(Row(r), r)
  {
  }

  lemma StepMoves(s: seq<bool>)
    requires |s| == 32
    ensures Moves(s, StepBit(s, false), TAPS)
  {
  }

  lemma NextIsStep(r: Register)
    ensures StepBit(Row(r), false) == Row(Next(r))
  {
    TapsOk();
    RowShows(r);
    StepMoves(Row(r));
    NextShown(Row(r), StepBit(Row(r), false), TAPS, r);
  }

  lemma {:induction false} AfterIsFeed(r: Register, k: nat)
    ensures Feed(Row(r), Zeros(k)) == Row(After(r, k))
    decreases k
  {
    if k > 0 {
      NextIsStep(r);
      AfterIsFeed(Next(r), k - 1);
      assert Zeros(k)[0] == false && Zeros(k)[1..] == Zeros(k - 1);
    }
  }

  lemma {:induction false} AfterThen(r: Register, j: nat, k: nat)
    ensures After(r, j + k) == After(After(r, j), k)
    decreases j
  {
    if j > 0 {
      AfterThen(Next(r), j - 1, k);
    }
  }

  // ---- Thirty-two of them ----

  const AFTER0: Register := Register(
    Octet(true, true, true, true, true, true, true, true),
    Octet(true, true, true, true, true, true, true, true),
    Octet(true, true, true, true, true, true, true, true),
    Octet(true, true, true, true, true, true, true, true))

  const AFTER8: Register := Register(
    Octet(false, true, false, false, true, true, true, false),
    Octet(false, false, false, false, true, false, false, false),
    Octet(true, false, true, true, true, true, true, true),
    Octet(true, false, true, true, false, true, false, false))

  const AFTER16: Register := Register(
    Octet(false, false, false, false, false, false, false, false),
    Octet(true, false, true, true, false, true, true, true),
    Octet(false, true, true, false, false, true, false, false),
    Octet(false, true, true, true, true, true, false, true))

  const AFTER24: Register := Register(
    Octet(true, false, true, true, false, true, true, true),
    Octet(false, true, true, false, false, true, false, false),
    Octet(false, true, true, true, true, true, false, true),
    Octet(false, false, false, false, false, false, false, false))

  const AFTER32: Register := Register(
    Octet(true, true, false, false, false, true, true, true),
    Octet(false, false, false, false, false, true, false, false),
    Octet(true, true, false, true, true, true, false, true),
    Octet(false, true, true, true, true, false, true, true))

  lemma Eight0()
    ensures After(AFTER0, 8) == AFTER8
  {
  }

  lemma Eight1()
    ensures After(AFTER8, 8) == AFTER16
  {
  }

  lemma Eight2()
    ensures After(AFTER16, 8) == AFTER24
  {
  }

  lemma Eight3()
    ensures After(AFTER24, 8) == AFTER32
  {
  }

  lemma FourTimes(r: Register, k: nat)
    ensures After(r, k + k + k + k) == After(After(After(After(r, k), k), k), k)
  {
    AfterThen(r, k, k + k + k);
    AfterThen(After(r, k), k, k + k);
    AfterThen(After(After(r, k), k), k, k);
  }

  lemma AfterAll()
    ensures After(AFTER0, 32) == AFTER32
  {
    Eight0();
    Eight1();
    Eight2();
    Eight3();
    FourTimes(AFTER0, 8);
  }

  lemma AllOnes()
    ensures Row(AFTER0) == Ones(32)
  {
  }

  /** The all-ones register after 32 zero bits. */
  lemma ThirtyTwoZeros()
    ensures Feed(Ones(32), Zeros(32)) == Row(AFTER32)
  {
    AllOnes();
    AfterIsFeed(AFTER0, 32);
    AfterAll();
  }
}
