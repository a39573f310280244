/** A register with a lone leading one, evaluated after every eight of the 192 zeros fed to it. */
module LoneBit {
  import opened GoodFcs

  const LONE0: Register := Register(
    Octet(true, false, false, false, false, false, false, false),
    Octet(false, false, false, false, false, false, false, false),
    Octet(false, false, false, false, false, false, false, false),
    Octet(false, false, false, false, false, false, false, false))

  const LONE8: Register := Register(
    Octet(false, true, true, false, true, false, false, true),
    Octet(false, false, false, false, true, true, false, false),
    Octet(true, true, true, false, false, false, false, false),
    Octet(true, true, true, false, true, true, true, false))

  const LONE16: Register := Register(
    Octet(true, false, false, false, false, false, true, false),
    Octet(true, false, false, false, true, true, false, false),
    Octet(true, true, false, true, true, false, false, false),
    Octet(true, false, false, true, true, false, false, false))

  const LONE24: Register := Register(
    Octet(true, true, true, false, true, true, false, false),
    Octet(false, true, false, true, false, true, true, false),
    Octet(false, true, false, false, false, false, true, true),
    Octet(true, false, false, false, false, false, false, false))

  const LONE32: Register := Register(
    Octet(true, false, true, false, false, true, true, false),
    Octet(true, true, true, false, false, true, true, false),
    Octet(false, false, true, true, true, true, false, true),
    Octet(false, false, false, true, true, true, false, true))

  const LONE40: Register := Register(
    Octet(false, false, false, false, true, true, false, true),
    Octet(true, false, false, true, false, true, false, false),
    Octet(false, false, false, false, false, true, true, false),
    Octet(true, false, true, true, true, true, false, false))

  const LONE48: Register := Register(
    Octet(true, false, true, false, false, true, false, true),
    Octet(true, true, false, false, true, false, true, true),
    Octet(false, false, true, true, true, false, true, false),
    Octet(true, true, false, true, false, false, true, true))

  const LONE56: Register := Register(
    Octet(false, false, true, false, true, true, false, true),
    Octet(true, true, false, true, false, false, false, false),
    Octet(true, true, true, false, true, true, true, false),
    Octet(false, true, true, false, false, true, false, true))

  const LONE64: Register := Register(
    Octet(false, true, true, true, true, false, false, true),
    Octet(false, false, false, false, false, false, false, false),
    Octet(false, true, false, true, false, true, false, true),
    Octet(false, false, true, true, false, false, true, true))

  const LONE72: Register := Register(
    Octet(true, true, false, false, false, false, true, false),
    Octet(false, false, true, false, true, false, false, false),
    Octet(true, true, false, true, true, true, true, false),
    Octet(true, true, true, false, true, false, false, false))

  const LONE80: Register := Register(
    Octet(false, true, true, true, true, true, false, false),
    Octet(true, true, false, true, false, true, true, false),
    Octet(false, true, false, false, false, false, true, true),
    Octet(true, true, true, true, false, true, true, true))

  const LONE88: Register := Register(
    Octet(false, false, false, false, false, false, true, true),
    Octet(true, true, true, true, true, false, true, true),
    Octet(false, true, true, true, false, false, false, true),
    Octet(true, false, false, false, false, false, true, true))

  const LONE96: Register := Register(
    Octet(true, true, true, true, false, true, true, false),
    Octet(false, false, true, true, false, false, true, false),
    Octet(true, false, true, false, false, true, false, true),
    Octet(true, true, false, true, true, false, false, true))

  const LONE104: Register := Register(
    Octet(true, false, true, false, false, false, false, true),
    Octet(true, false, false, true, true, false, true, true),
    Octet(false, true, true, false, true, false, false, true),
    Octet(true, false, true, true, true, false, true, true))

  const LONE112: Register := Register(
    Octet(false, true, true, false, true, true, true, false),
    Octet(true, false, false, false, false, true, true, true),
    Octet(true, true, true, true, false, false, false, false),
    Octet(true, false, true, true, true, false, false, true))

  const LONE120: Register := Register(
    Octet(false, false, false, true, false, true, true, true),
    Octet(true, true, false, true, true, false, true, true),
    Octet(true, true, false, true, true, true, true, true),
    Octet(true, false, false, true, true, true, false, true))

  const LONE128: Register := Register(
    Octet(true, false, false, false, true, false, false, true),
    Octet(true, false, false, false, true, false, false, true),
    Octet(false, false, false, true, false, true, true, false),
    Octet(false, true, true, true, false, true, false, true))

  const LONE136: Register := Register(
    Octet(true, true, false, false, false, false, true, false),
    Octet(true, true, false, true, false, false, true, true),
    Octet(false, true, true, false, false, true, false, true),
    Octet(true, true, true, false, false, false, false, true))

  const LONE144: Register := Register(
    Octet(true, false, false, false, false, true, true, true),
    Octet(false, true, true, false, true, true, false, true),
    Octet(false, true, false, false, true, false, true, false),
    Octet(true, true, true, true, false, true, true, true))

  const LONE152: Register := Register(
    Octet(false, false, false, true, true, false, true, false),
    Octet(false, false, false, false, false, false, false, true),
    Octet(false, true, false, false, false, true, true, true),
    Octet(true, true, true, false, true, false, true, true))

  const LONE160: Register := Register(
    Octet(false, true, true, false, false, false, true, false),
    Octet(true, true, false, true, true, true, false, false),
    Octet(true, true, true, false, false, true, true, false),
    Octet(true, false, true, false, false, true, true, false))

  const LONE168: Register := Register(
    Octet(false, true, true, true, true, false, false, true),
    Octet(true, true, false, false, false, false, false, true),
    Octet(false, true, false, true, true, false, true, true),
    Octet(true, true, true, true, true, false, false, true))

  const LONE176: Register := Register(
    Octet(false, false, false, false, false, false, true, true),
    Octet(false, false, true, false, false, true, true, false),
    Octet(false, false, false, true, false, true, false, false),
    Octet(true, true, true, false, true, false, false, false))

  const LONE184: Register := Register(
    Octet(false, false, true, false, true, false, true, true),
    Octet(false, true, false, true, false, true, true, true),
    Octet(true, true, false, false, true, true, true, false),
    Octet(true, true, false, true, true, false, false, true))

  const LONE192: Register := Register(
    Octet(true, true, true, false, false, true, false, false),
    Octet(true, false, true, false, false, true, true, false),
    Octet(true, false, true, false, false, true, false, false),
    Octet(true, false, false, false, false, false, false, true))

  lemma Eight0()
    ensures After(LONE0, 8) == LONE8
  {
  }

  lemma Eight1()
    ensures After(LONE8, 8) == LONE16
  {
  }

  lemma Eight2()
    ensures After(LONE16, 8) == LONE24
  {
  }

  lemma Eight3()
    ensures After(LONE24, 8) == LONE32
  {
  }

  lemma Eight4()
    ensures After(LONE32, 8) == LONE40
  {
  }

  lemma Eight5()
    ensures After(LONE40, 8) == LONE48
  {
  }

  lemma Eight6()
    ensures After(LONE48, 8) == LONE56
  {
  }

  lemma Eight7()
    ensures After(LONE56, 8) == LONE64
  {
  }

  lemma Eight8()
    ensures After(LONE64, 8) == LONE72
  {
  }

  lemma Eight9()
    ensures After(LONE72, 8) == LONE80
  {
  }

  lemma Eight10()
    ensures After(LONE80, 8) == LONE88
  {
  }

  lemma Eight11()
    ensures After(LONE88, 8) == LONE96
  {
  }

  lemma Eight12()
    ensures After(LONE96, 8) == LONE104
  {
  }

  lemma Eight13()
    ensures After(LONE104, 8) == LONE112
  {
  }

  lemma Eight14()
    ensures After(LONE112, 8) == LONE120
  {
  }

  lemma Eight15()
    ensures After(LONE120, 8) == LONE128
  {
  }

  lemma Eight16()
    ensures After(LONE128, 8) == LONE136
  {
  }

  lemma Eight17()
    ensures After(LONE136, 8) == LONE144
  {
  }

  lemma Eight18()
    ensures After(LONE144, 8) == LONE152
  {
  }

  lemma Eight19()
    ensures After(LONE152, 8) == LONE160
  {
  }

  lemma Eight20()
    ensures After(LONE160, 8) == LONE168
  {
  }

  lemma Eight21()
    ensures After(LONE168, 8) == LONE176
  {
  }

  lemma Eight22()
    ensures After(LONE176, 8) == LONE184
  {
  }

  lemma Eight23()
    ensures After(LONE184, 8) == LONE192
  {
  }

  lemma Block0(n: nat)
    requires n == 8
    ensures After(LONE0, n + n + n + n) == LONE32
  {
    Eight0();
    Eight1();
    Eight2();
    Eight3();
    FourTimes(LONE0, n);
  }

  lemma Block1(n: nat)
    requires n == 8
    ensures After(LONE32, n + n + n + n) == LONE64
  {
    Eight4();
    Eight5();
    Eight6();
    Eight7();
    FourTimes(LONE32, n);
  }

  lemma Block2(n: nat)
    requires n == 8
    ensures After(LONE64, n + n + n + n) == LONE96
  {
    Eight8();
    Eight9();
    Eight10();
    Eight11();
    FourTimes(LONE64, n);
  }

  lemma Block3(n: nat)
    requires n == 8
    ensures After(LONE96, n + n + n + n) == LONE128
  {
    Eight12();
    Eight13();
    Eight14();
    Eight15();
    FourTimes(LONE96, n);
  }

  lemma Block4(n: nat)
    requires n == 8
    ensures After(LONE128, n + n + n + n) == LONE160
  {
    Eight16();
    Eight17();
    Eight18();
    Eight19();
    FourTimes(LONE128, n);
  }

  lemma Block5(n: nat)
    requires n == 8
    ensures After(LONE160, n + n + n + n) == LONE192
  {
    Eight20();
    Eight21();
    Eight22();
    Eight23();
    FourTimes(LONE160, n);
  }

  /** The register after `b` times 32 zeros. */
  function AtBlock(b: nat): Register {
    match b
    case 0 => LONE0
    case 1 => LONE32
    case 2 => LONE64
    case 3 => LONE96
    case 4 => LONE128
    case 5 => LONE160
    case _ => LONE192
  }

  lemma BlockStep(b: nat, n: nat)
    requires b < 6 && n == 8
    ensures After(AtBlock(b), n + n + n + n) == AtBlock(b + 1)
  {
    match b {
      case 0 => Block0(n);
      case 1 => Block1(n);
      case 2 => Block2(n);
      case 3 => Block3(n);
      case 4 => Block4(n);
      case _ => Block5(n);
    }
  }

  lemma {:induction false} StepByStep(start: Register, b: nat, n: nat)
    requires start == AtBlock(0) && forall c :: 0 <= c < b ==> After(AtBlock(c), n) == AtBlock(c + 1)
    ensures After(start, b * n) == AtBlock(b)
  {
    if b > 0 {
      StepByStep(start, b - 1, n);
      AfterThen(start, (b - 1) * n, n);
      assert (b - 1) * n + n == b * n;
    }
  }

  lemma AfterBlocks(b: nat, n: nat)
    requires b <= 6 && n == 32
    ensures After(AtBlock(0), b * n) == AtBlock(b)
  {
    forall c | 0 <= c < b ensures After(AtBlock(c), n) == AtBlock(c + 1) {
      BlockStep(c, 8);
    }
    StepByStep(AtBlock(0), b, n);
  }
}
