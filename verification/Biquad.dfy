/** The second-order notch filter of the echo-canceller disable detector, in the machine's integers. */
module Biquad {

  /** A value cut to 32 and to 16 bits, two's complement. */
  function Wrap32(x: int): int { (x + 0x8000_0000) % 0x1_0000_0000 - 0x8000_0000 }

  function Wrap16(x: int): int { (x + 0x8000) % 0x1_0000 - 0x8000 }

  predicate Fits32(x: int) { -0x8000_0000 <= x < 0x8000_0000 }

  predicate Fits16(x: int) { -0x8000 <= x < 0x8000 }

  /** The coefficients of the detector, cut to integers as the initialisation does. */
  const GAIN := -24903
  const A1 := -3879
  const A2 := -16724
  const B1 := 5136
  const B2 := 32768

  /** The two delay values. */
  datatype Taps = Taps(z1: int, z2: int)

  /** The recurrence over the integers: an arithmetic shift by 15 is a floor division. */
  function Feedback(t: Taps, sample: int): int { sample * GAIN + t.z1 * A1 + t.z2 * A2 }

  function Output(t: Taps, sample: int): int {
    (Feedback(t, sample) + t.z1 * B1 + t.z2 * B2) / 32768
  }

  function Next(t: Taps, sample: int): Taps { Taps(Feedback(t, sample) / 32768, t.z1) }

  function After(samples: seq<int>): Taps
    decreases |samples|
  {
    if |samples| == 0 then Taps(0, 0)
    else Next(After(samples[..|samples| - 1]), samples[|samples| - 1])
  }

  class Filter {
    var gain: int
    var a1: int
    var a2: int
    var b1: int
    var b2: int
    var z1: int
    var z2: int

    ghost predicate Valid()
      reads this
    {
      gain == GAIN && a1 == A1 && a2 == A2 && b1 == B1 && b2 == B2
    }

    constructor ()
      ensures Valid() && z1 == 0 && z2 == 0
    {
      gain, a1, a2, b1, b2 := GAIN, A1, A2, B1, B2;
      z1, z2 := 0, 0;
    }

    /** One sample, every product and sum cut to 32 bits and the result to 16: on a reachable state the
        cuts to 32 bits change nothing, whatever the sample. */
    method Biquad2(sample: int) returns (y: int)
      requires Valid() && Reachable(Taps(z1, z2), 0x8000) && Fits16(sample)
      modifies `z1, `z2
      ensures Taps(z1, z2) == Next(old(Taps(z1, z2)), sample)
      ensures Reachable(Taps(z1, z2), 0x8000)
      ensures z2 == old(z1) && z1 == (sample * -24903 + old(z1) * -3879 + old(z2) * -16724) / 32768
      ensures Fits16(y) && (y - Output(old(Taps(z1, z2)), sample)) % 0x1_0000 == 0
      ensures y == Wrap16(Output(old(Taps(z1, z2)), sample))
    {
      hide Reachable, Wrap32, Wrap16;
      ghost var t := Taps(z1, z2);
      NoOverflow(t, sample);
      StaysReachable(t, sample, 0x8000);
      StepUncut(t, sample);
      var z0 := Wrap32(Wrap32(Wrap32(sample * gain) + Wrap32(z1 * a1)) + Wrap32(z2 * a2));
      var out := Wrap32(Wrap32(z0 + Wrap32(z1 * b1)) + Wrap32(z2 * b2));
      z2 := z1;
      z1 := z0 / 32768;
      CutTo16(out / 32768);
      y := Wrap16(out / 32768);
    }
  }

  /** Sixteen bits, the same but for a multiple of 65536; so what fits is unchanged. */
  lemma CutTo16(x: int)
    ensures Fits16(Wrap16(x)) && (Wrap16(x) - x) % 0x1_0000 == 0
    ensures Wrap16(x) == x <==> Fits16(x)
  {
  }

  /** What the filter gives for the sample after those: their sum with the gain, the feedback and the
      forward coefficients written out. */
  lemma OutputIs(t: Taps, sample: int)
    ensures Output(t, sample) ==
            (sample * -24903 + t.z1 * -3879 + t.z2 * -16724 + t.z1 * 5136 + t.z2 * 32768) / 32768
  {
  }

  // ---- an invariant of every run ----

  /** The largest delay value for samples of size at most `s`. */
  function Peak(s: nat): nat
    requires s <= 0x8000
  {
    (62843 * s) / 32768 + 8
  }

  function Abs(x: int): nat { if x < 0 then -x else x }

  /** Both delay values are small, and the newer follows the older up to what samples and the value before
      can have added. */
  ghost predicate Reachable(t: Taps, s: nat)
    requires s <= 0x8000
  {
    && Abs(t.z1) <= Peak(s) && Abs(t.z2) <= Peak(s)
    && Abs(32768 * t.z1 - A1 * t.z2) <= 24903 * s + 16724 * Peak(s) + 32767
  }

  lemma PeakIsEnough(s: nat, p: nat)
    requires s <= 0x8000 && p == Peak(s)
    ensures 32768 * (24903 * s + 16265 * p + 32767 + 1) + 3879 * (24903 * s + 16724 * p + 32767) <=
            32768 * 32768 * p
  {
    assert 32768 * p > 62843 * s + 32768 * 7;
  }

  lemma StaysReachable(t: Taps, sample: int, s: nat)
    requires s <= 0x8000 && Reachable(t, s) && Abs(sample) <= s
    ensures Reachable(Next(t, sample), s)
  {
    var p := Peak(s);
    PeakIsEnough(s, p);
    var z0 := Feedback(t, sample);
    var q := z0 / 32768;
    assert 0 <= z0 - 32768 * q < 32768;
    var d := 32768 * t.z1 - A1 * t.z2;
    // The newest value through the one before it: 32768 * A1 * z1 == A1 * d + A1 * A1 * z2.
    assert 32768 * z0 == 32768 * (sample * GAIN) + A1 * d + (A1 * A1 + 32768 * A2) * t.z2;
  }

  /** No sum or product of one step leaves 32 bits, for any sixteen-bit sample. */
  lemma NoOverflow(t: Taps, sample: int)
    requires Reachable(t, 0x8000) && Fits16(sample)
    ensures Fits32(sample * GAIN) && Fits32(t.z1 * A1) && Fits32(t.z2 * A2)
    ensures Fits32(sample * GAIN + t.z1 * A1) && Fits32(Feedback(t, sample))
    ensures Fits32(t.z1 * B1) && Fits32(t.z2 * B2)
    ensures Fits32(Feedback(t, sample) + t.z1 * B1)
    ensures Fits32(Feedback(t, sample) + t.z1 * B1 + t.z2 * B2)
  {
    assert Peak(0x8000) == 62851;
  }

  lemma Uncut(x: int)
    requires Fits32(x)
    ensures Wrap32(x) == x
  {
  }

  lemma {:induction false} StepUncut(t: Taps, sample: int)
    requires Reachable(t, 0x8000) && Fits16(sample)
    ensures Wrap32(Wrap32(Wrap32(sample * GAIN) + Wrap32(t.z1 * A1)) + Wrap32(t.z2 * A2)) == Feedback(t, sample)
    ensures Wrap32(Wrap32(Feedback(t, sample) + Wrap32(t.z1 * B1)) + Wrap32(t.z2 * B2)) / 32768 ==
            Output(t, sample)
  {
    NoOverflow(t, sample);
    hide Reachable, Wrap32, Fits32;
    Uncut(sample * GAIN);
    Uncut(t.z1 * A1);
    Uncut(t.z2 * A2);
    Uncut(sample * GAIN + t.z1 * A1);
    Uncut(Feedback(t, sample));
    Uncut(t.z1 * B1);
    Uncut(t.z2 * B2);
    Uncut(Feedback(t, sample) + t.z1 * B1);
    Uncut(Feedback(t, sample) + t.z1 * B1 + t.z2 * B2);
  }

  predicate Within(samples: seq<int>, s: nat) {
    forall i :: 0 <= i < |samples| ==> Abs(samples[i]) <= s
  }

  lemma {:induction false} RunReachable(samples: seq<int>, s: nat)
    requires s <= 0x8000 && Within(samples, s)
    ensures Reachable(After(samples), s)
    decreases |samples|
  {
    if |samples| > 0 {
      RunReachable(samples[..|samples| - 1], s);
      StaysReachable(After(samples[..|samples| - 1]), samples[|samples| - 1], s);
    }
  }

  /** On every run of sixteen-bit samples, of any length and any size, no intermediate of the next step
      leaves 32 bits. */
  lemma {:induction false} RunNeverOverflows(samples: seq<int>, sample: int)
    requires forall i :: 0 <= i < |samples| ==> Fits16(samples[i])
    requires Fits16(sample)
    ensures var t := After(samples);
            && Fits32(sample * GAIN + t.z1 * A1) && Fits32(Feedback(t, sample))
            && Fits32(Feedback(t, sample) + t.z1 * B1)
            && Fits32(Feedback(t, sample) + t.z1 * B1 + t.z2 * B2)
  {
    RunReachable(samples, 0x8000);
    NoOverflow(After(samples), sample);
  }

  /** With samples of 7000 at most, the delay values stay within 15000. */
  lemma RunStaysSmall(samples: seq<int>)
    requires Within(samples, 7000)
    ensures var t := After(samples); Abs(t.z1) <= 15000 && Abs(t.z2) <= 15000
  {
    RunReachable(samples, 7000);
  }

  // ---- the exact limit of the result ----

  /** A linear form in the delay values, in units of a power of two, and what has been set aside for it. */
  datatype Form = Form(cost: nat, a: int, b: int)

  /** The form one step earlier: what the sample and the cuts of the step can add is set aside. */
  function Back(f: Form, s: nat): Form
    requires s <= 0x8000
  {
    Form(f.cost + Abs(f.a) * s * 24903 / 32768 + 1 + Abs(f.a) + 2 * Peak(s), f.a * A1 / 32768 + f.b, f.a * A2 / 32768)
  }

  /** A bound on the form after any run with samples of size at most `s`: `n` steps taken back, and the rest
      bounded by the size of the delay values. */
  function Total(n: nat, f: Form, s: nat): nat
    requires s <= 0x8000
  {
    if n == 0 then f.cost + (Abs(f.a) + Abs(f.b)) * Peak(s) else Total(n - 1, Back(f, s), s)
  }

  lemma Product(x: int, y: int, m: nat, n: nat)
    requires Abs(x) <= m && Abs(y) <= n
    ensures Abs(x * y) <= m * n
  {
    assert Abs(x * y) == Abs(x) * Abs(y);
    assert Abs(x) * Abs(y) <= m * Abs(y) <= m * n;
  }

  lemma Split(a: int, c: int, z: int)
    ensures a * (z * c) == 32768 * ((a * c / 32768) * z) + (a * c % 32768) * z
  {
    var q, r := a * c / 32768, a * c % 32768;
    assert a * (z * c) == (a * c) * z == (32768 * q + r) * z;
  }

  lemma Distribute(a: int, x: int, y: int, z: int)
    ensures a * (x + y + z) == a * x + a * y + a * z
  {
  }

  lemma Commute(a: int, z: int, c: int)
    ensures a * (z * c) == c * (a * z)
  {
  }

  /** The form after a run, with what has been set aside for it. */
  ghost function Worth(f: Form, t: Taps): nat { f.cost + Abs(f.a * t.z1 + f.b * t.z2) }

  /** One step taken back. */
  lemma StepBack(t: Taps, u: int, f: Form, s: nat)
    requires s <= 0x8000 && Abs(t.z1) <= Peak(s) && Abs(t.z2) <= Peak(s) && Abs(u) <= s
    ensures Worth(f, Next(t, u)) <= Worth(Back(f, s), t)
  {
    hide *;
    var (a, p) := (f.a, Peak(s));
    var z, r := Feedback(t, u) / 32768, Feedback(t, u) % 32768;
    var e1, e2 := a * A1 % 32768 * t.z1, a * A2 % 32768 * t.z2;
    var x1, x2 := a * A1 / 32768 * t.z1, a * A2 / 32768 * t.z2;
    StepParts(a, t, u);
    Product(a * A1 % 32768, t.z1, 32768, p) by { AbsOf(a * A1 % 32768); }
    Product(a * A2 % 32768, t.z2, 32768, p) by { AbsOf(a * A2 % 32768); }
    Product(a, u, Abs(a), s);
    Product(a, r, Abs(a), 32768) by { AbsOf(r); }
    Gather(a * z, a * u, a * r, Abs(a) * s, Abs(a), e1, e2, x1, x2, f.b * t.z1, p);
    WorthParts(f, t, u, s, x1, x2);
  }

  lemma AbsOf(x: nat)
    ensures Abs(x) == x
  {
  }

  lemma WorthParts(f: Form, t: Taps, u: int, s: nat, x1: int, x2: int)
    requires s <= 0x8000 && x1 == f.a * A1 / 32768 * t.z1 && x2 == f.a * A2 / 32768 * t.z2
    ensures Worth(f, Next(t, u)) == f.cost + Abs(f.a * (Feedback(t, u) / 32768) + f.b * t.z1)
    ensures Worth(Back(f, s), t) ==
            f.cost + Abs(f.a) * s * 24903 / 32768 + 1 + Abs(f.a) + 2 * Peak(s) + Abs(x1 + f.b * t.z1 + x2)
  {
    hide Peak, Feedback, Abs;
    Distribute(t.z1, f.a * A1 / 32768, f.b, 0);
  }

  lemma StepParts(a: int, t: Taps, u: int)
    ensures 32768 * (a * (Feedback(t, u) / 32768)) + a * (Feedback(t, u) % 32768) ==
            -24903 * (a * u) + (32768 * (a * A1 / 32768 * t.z1) + a * A1 % 32768 * t.z1)
            + (32768 * (a * A2 / 32768 * t.z2) + a * A2 % 32768 * t.z2)
  {
    var z, r := Feedback(t, u) / 32768, Feedback(t, u) % 32768;
    Distribute(a, 32768 * z, r, 0);
    Distribute(a, u * GAIN, t.z1 * A1, t.z2 * A2);
    Split(a, A1, t.z1);
    Split(a, A2, t.z2);
    Commute(a, z, 32768);
    Commute(a, u, GAIN);
    assert z * 32768 == 32768 * z;
  }

  lemma Gather(az: int, au: int, ar: int, m: nat, n: nat, e1: int, e2: int, x1: int, x2: int, y: int, p: nat)
    requires 32768 * az + ar == -24903 * au + (32768 * x1 + e1) + (32768 * x2 + e2)
    requires Abs(au) <= m && Abs(ar) <= n * 32768 && Abs(e1) <= 32768 * p && Abs(e2) <= 32768 * p
    ensures Abs(az + y) <= m * 24903 / 32768 + 1 + n + 2 * p + Abs(x1 + y + x2)
  {
  }

  lemma {:induction false} Bounded(samples: seq<int>, n: nat, f: Form, s: nat)
    requires s <= 0x8000 && Within(samples, s)
    ensures Worth(f, After(samples)) <= Total(n, f, s)
    decreases n
  {
    hide Reachable, Next, Back, Worth;
    if n == 0 {
      WorthSmall(samples, f, s);
    } else if |samples| > 0 {
      var front, u := samples[..|samples| - 1], samples[|samples| - 1];
      SmallTaps(front, s);
      StepBack(After(front), u, f, s);
      Bounded(front, n - 1, Back(f, s), s);
    } else {
      Bounded(samples, n - 1, Back(f, s), s);
      Cheaper(f, s);
    }
  }

  lemma WorthSmall(samples: seq<int>, f: Form, s: nat)
    requires s <= 0x8000 && Within(samples, s)
    ensures Worth(f, After(samples)) <= Total(0, f, s)
  {
    var t, p := After(samples), Peak(s);
    SmallTaps(samples, s);
    Product(f.a, t.z1, Abs(f.a), p);
    Product(f.b, t.z2, Abs(f.b), p);
    assert (Abs(f.a) + Abs(f.b)) * p == Abs(f.a) * p + Abs(f.b) * p;
  }

  lemma SmallTaps(samples: seq<int>, s: nat)
    requires s <= 0x8000 && Within(samples, s)
    ensures Abs(After(samples).z1) <= Peak(s) && Abs(After(samples).z2) <= Peak(s)
  {
    RunReachable(samples, s);
  }

  lemma Cheaper(f: Form, s: nat)
    requires s <= 0x8000
    ensures Worth(f, After([])) <= Worth(Back(f, s), After([]))
  {
    assert After([]) == Taps(0, 0);
    assert Abs(f.a) * s * 24903 / 32768 >= 0;
  }

  /** The largest sample size for which every result fits sixteen bits. */
  const LOUD := 19331

  /** On every run with samples of that size the result fits sixteen bits. */
  lemma {:induction false} RunFitsResult(samples: seq<int>, sample: int)
    requires Within(samples, LOUD) && Abs(sample) <= LOUD
    ensures var t := After(samples);
            Fits16(Output(t, sample)) && Abs(t.z1) <= 37100 && Abs(t.z2) <= 37100
  {
    var t := After(samples);
    SmallTaps(samples, LOUD);
    Bounded(samples, 32, Form(0, 1257 * UNIT, 16044 * UNIT), LOUD);
    Ladder();
    assert 1257 * UNIT * t.z1 + 16044 * UNIT * t.z2 == UNIT * (t.z1 * (A1 + B1) + t.z2 * (A2 + B2));
  }

  const UNIT := 4096

  /** One of the steps below. */
  lemma Rung(n: nat, f: Form, g: Form)
    requires n > 0 && Back(f, LOUD) == g
    ensures Total(n, f, LOUD) == Total(n - 1, g, LOUD)
  {
  }

  /** The form of the result, thirty-two steps back. */
  lemma {:induction false} Ladder()
    ensures Total(32, Form(0, 1257 * UNIT, 16044 * UNIT), LOUD) < UNIT * (32768 * 32768 - 24903 * LOUD)
  {
    hide Total;
    FirstRungs();
    SecondRungs();
    ThirdRungs();
    FourthRungs();
    TotalNone(Form(2426148417575, 815, -1213), LOUD);
  }

  lemma TotalNone(f: Form, s: nat)
    requires s <= 0x8000
    ensures Total(0, f, s) == f.cost + (Abs(f.a) + Abs(f.b)) * Peak(s)
  {
  }

  lemma {:induction false} FirstRungs()
    ensures Total(32, Form(0, 5148672, 65716224), LOUD) == Total(24, Form(2209429522573, 4114902, 3586852), LOUD)
  {
    hide Total;
    Rung(32, Form(0, 5148672, 65716224), Form(75645181022, 65106736, -2627759));
    Rung(31, Form(75645181022, 65106736, -2627759), Form(1032203762310, -10334944, -33228914));
    Rung(30, Form(1032203762310, -10334944, -33228914), Form(1184046475364, -32005488, 5274707));
    Rung(29, Form(1184046475364, -32005488, 5274707), Form(1654276263102, 9063442, 16334832));
    Rung(28, Form(1654276263102, 9063442, 16334832), Form(1787437866802, 15261922, -4625764));
    Rung(27, Form(1787437866802, 15261922, -4625764), Form(2011668523253, -6432436, -7789319));
    Rung(26, Form(2011668523253, -6432436, -7789319), Form(2106174968881, -7027863, 3282960));
    Rung(25, Form(2106174968881, -7027863, 3282960), Form(2209429522573, 4114902, 3586852));
  }

  lemma {:induction false} SecondRungs()
    ensures Total(24, Form(2209429522573, 4114902, 3586852), LOUD) ==
            Total(16, Form(2412359227585, 416210, 80913), LOUD)
  {
    hide Total;
    Rung(24, Form(2209429522573, 4114902, 3586852), Form(2269886390547, 3099739, -2100148));
    Rung(23, Form(2269886390547, 3099739, -2100148), Form(2315428322472, -2467088, -1582033));
    Rung(22, Form(2315428322472, -2467088, -1582033), Form(2351675245413, -1289985, 1259142));
    Rung(21, Form(2351675245413, -1289985, 1259142), Form(2370627984102, 1411847, 658377));
    Rung(20, Form(2370627984102, 1411847, 658377), Form(2391371138652, 491245, -720573));
    Rung(19, Form(2391371138652, 491245, -720573), Form(2398588662386, -778726, -250720));
    Rung(18, Form(2398588662386, -778726, -250720), Form(2410029902636, -158537, 397443));
    Rung(17, Form(2410029902636, -158537, 397443), Form(2412359227585, 416210, 80913));
  }

  lemma {:induction false} ThirdRungs()
    ensures Total(16, Form(2412359227585, 416210, 80913), LOUD) == Total(8, Form(2425134080007, 25551, -7863), LOUD)
  {
    hide Total;
    Rung(16, Form(2412359227585, 416210, 80913), Form(2418474325180, 31643, -212424));
    Rung(15, Form(2418474325180, 31643, -212424), Form(2418939303325, -216170, -16150));
    Rung(14, Form(2418939303325, -216170, -16150), Form(2422115381465, 9439, 110327));
    Rung(13, Form(2422115381465, 9439, 110327), Form(2422254134915, 109209, -4818));
    Rung(12, Form(2422254134915, 109209, -4818), Form(2423858725053, -17746, -55738));
    Rung(11, Form(2423858725053, -17746, -55738), Form(2424119526266, -53638, 9057));
    Rung(10, Form(2424119526266, -53638, 9057), Form(2424907658445, 15406, 27375));
    Rung(9, Form(2424907658445, 15406, 27375), Form(2425134080007, 25551, -7863));
  }

  lemma {:induction false} FourthRungs()
    ensures Total(8, Form(2425134080007, 25551, -7863), LOUD) == Total(0, Form(2426148417575, 815, -1213), LOUD)
  {
    hide Total;
    Rung(8, Form(2425134080007, 25551, -7863), Form(2425509553520, -10888, -13041));
    Rung(7, Form(2425509553520, -10888, -13041), Form(2425669595908, -11753, 5556));
    Rung(6, Form(2425669595908, -11753, 5556), Form(2425842347013, 6947, 5998));
    Rung(5, Form(2425842347013, 6947, 5998), Form(2425944487603, 5175, -3546));
    Rung(4, Form(2425944487603, 5175, -3546), Form(2426020593688, -4159, -2642));
    Rung(3, Form(2426020593688, -4159, -2642), Form(2426081772539, -2150, 2122));
    Rung(2, Form(2426081772539, -2150, 2122), Form(2426113434843, 2376, 1097));
    Rung(1, Form(2426113434843, 2376, 1097), Form(2426148417575, 815, -1213));
  }

  // ---- a run one louder ----

  const L := LOUD + 1

  lemma LoudStep(run: seq<int>, t: Taps, u: int, t': Taps) returns (run': seq<int>)
    requires After(run) == t && Next(t, u) == t' && Within(run, L) && Abs(u) <= L
    ensures After(run') == t' && Within(run', L)
  {
    run' := run + [u];
    assert run'[..|run|] == run;
  }

  lemma {:induction false} FirstEight(start: seq<int>) returns (run: seq<int>)
    requires Within(start, L) && After(start) == Taps(0, 0)
    ensures Within(run, L) && After(run) == Taps(-32801, 22338)
  {
    hide After, Within;
    run := start;
    run := LoudStep(run, Taps(0, 0), L, Taps(-14692, 0));
    run := LoudStep(run, Taps(-14692, 0), -L, Taps(16431, -14692));
    run := LoudStep(run, Taps(16431, -14692), -L, Taps(20245, 16431));
    run := LoudStep(run, Taps(20245, 16431), L, Taps(-25475, 20245));
    run := LoudStep(run, Taps(-25475, 20245), L, Taps(-22009, -25475));
    run := LoudStep(run, Taps(-22009, -25475), -L, Taps(30299, -22009));
    run := LoudStep(run, Taps(30299, -22009), -L, Taps(22338, 30299));
    run := LoudStep(run, Taps(22338, 30299), L, Taps(-32801, 22338));
  }

  lemma {:induction false} SecondEight(start: seq<int>) returns (run: seq<int>)
    requires Within(start, L) && After(start) == Taps(-32801, 22338)
    ensures Within(run, L) && After(run) == Taps(-31630, -7700)
  {
    hide After, Within;
    run := start;
    run := LoudStep(run, Taps(-32801, 22338), L, Taps(-22210, -32801));
    run := LoudStep(run, Taps(-22210, -32801), -L, Taps(34061, -22210));
    run := LoudStep(run, Taps(34061, -22210), -L, Taps(21995, 34061));
    run := LoudStep(run, Taps(21995, 34061), L, Taps(-34680, 21995));
    run := LoudStep(run, Taps(-34680, 21995), L, Taps(-21813, -34680));
    run := LoudStep(run, Taps(-21813, -34680), -L, Taps(34973, -21813));
    run := LoudStep(run, Taps(34973, -21813), L, Taps(-7700, 34973));
    run := LoudStep(run, Taps(-7700, 34973), L, Taps(-31630, -7700));
  }

  lemma {:induction false} ThirdEight(start: seq<int>) returns (run: seq<int>)
    requires Within(start, L) && After(start) == Taps(-31630, -7700)
    ensures Within(run, L) && After(run) == Taps(-22826, -34233)
  {
    hide After, Within;
    run := start;
    run := LoudStep(run, Taps(-31630, -7700), -L, Taps(22366, -31630));
    run := LoudStep(run, Taps(22366, -31630), -L, Taps(28187, 22366));
    run := LoudStep(run, Taps(28187, 22366), L, Taps(-29444, 28187));
    run := LoudStep(run, Taps(-29444, 28187), L, Taps(-25593, -29444));
    run := LoudStep(run, Taps(-25593, -29444), -L, Taps(32749, -25593));
    run := LoudStep(run, Taps(32749, -25593), -L, Taps(23877, 32749));
    run := LoudStep(run, Taps(23877, 32749), L, Taps(-34233, 23877));
    run := LoudStep(run, Taps(-34233, 23877), L, Taps(-22826, -34233));
  }

  lemma {:induction false} FourthEight(start: seq<int>) returns (run: seq<int>)
    requires Within(start, L) && After(start) == Taps(-22826, -34233)
    ensures Within(run, L) && After(run) == Taps(-21591, -35227)
  {
    hide After, Within;
    run := start;
    run := LoudStep(run, Taps(-22826, -34233), -L, Taps(34865, -22826));
    run := LoudStep(run, Taps(34865, -22826), -L, Taps(22214, 34865));
    run := LoudStep(run, Taps(22214, 34865), L, Taps(-35116, 22214));
    run := LoudStep(run, Taps(-35116, 22214), L, Taps(-21873, -35116));
    run := LoudStep(run, Taps(-21873, -35116), -L, Taps(35203, -21873));
    run := LoudStep(run, Taps(35203, -21873), -L, Taps(21688, 35203));
    run := LoudStep(run, Taps(21688, 35203), L, Taps(-35227, 21688));
    run := LoudStep(run, Taps(-35227, 21688), L, Taps(-21591, -35227));
  }

  lemma LoudOutput()
    ensures Output(Taps(-21591, -35227), L) == -32769
  {
  }

  /** Thirty-three samples one louder than the limit push the result out. */
  lemma {:induction false} LoudRunIsCut() returns (run: seq<int>)
    ensures Within(run, L) && !Fits16(Output(After(run), L))
  {
    assert Within([], L) && After([]) == Taps(0, 0);
    LoudOutput();
    hide After, Within, Output;
    run := FirstEight([]);
    run := SecondEight(run);
    run := ThirdEight(run);
    run := FourthEight(run);
  }

  /** Every result of every run with samples up to a size fits sixteen bits if and only if the size is at
      most the limit. */
  lemma {:induction false} FitsExactly(s: nat)
    ensures (forall run, u :: Within(run, s) && Abs(u) <= s ==> Fits16(Output(After(run), u))) <==> s <= LOUD
  {
    if s <= LOUD {
      forall run, u | Within(run, s) && Abs(u) <= s
        ensures Fits16(Output(After(run), u))
      {
        RunFitsResult(run, u);
      }
    } else {
      var run := LoudRunIsCut();
      assert Within(run, s) && Abs(L) <= s && !Fits16(Output(After(run), L));
    }
  }

  // ---- the filter over a run ----

  /** A result is that of the recurrence in sixteen bits, and the recurrence itself when the samples are within
      the limit. */
  ghost predicate Answers(samples: seq<int>, i: nat, y: int)
    requires i < |samples|
  {
    && Fits16(y) && (y - Output(After(samples[..i]), samples[i])) % 0x1_0000 == 0
    && (Within(samples, LOUD) ==> y == Output(After(samples[..i]), samples[i]))
  }

  /** A fresh filter given any samples. */
  method Respond(samples: seq<int>) returns (results: seq<int>)
    requires forall i :: 0 <= i < |samples| ==> Fits16(samples[i])
    ensures |results| == |samples|
    ensures forall i :: 0 <= i < |samples| ==> Answers(samples, i, results[i])
  {
    hide Reachable, Output, Next, Wrap16, Answers, After;
    var filter := new Filter();
    results := [];
    FreshReachable();
    assert samples[..0] == [];
    while |results| < |samples|
      invariant |results| <= |samples| && filter.Valid() && fresh(filter)
      invariant Reachable(Taps(filter.z1, filter.z2), 0x8000)
      invariant Taps(filter.z1, filter.z2) == After(samples[..|results|])
      invariant forall i :: 0 <= i < |results| ==> Answers(samples, i, results[i])
    {
      AfterMore(samples, |results|);
      var y := filter.Biquad2(samples[|results|]);
      AnswerIs(samples, |results|, y);
      results := results + [y];
    }
  }

  lemma AfterMore(samples: seq<int>, i: nat)
    requires i < |samples|
    ensures After(samples[..i + 1]) == Next(After(samples[..i]), samples[i])
  {
    assert samples[..i + 1][..i] == samples[..i];
  }

  lemma AnswerIs(samples: seq<int>, i: nat, y: int)
    requires i < |samples| && y == Wrap16(Output(After(samples[..i]), samples[i]))
    ensures Answers(samples, i, y)
  {
    CutTo16(Output(After(samples[..i]), samples[i]));
    if Within(samples, LOUD) { RunFitsResult(samples[..i], samples[i]); }
  }

  lemma FreshReachable()
    ensures Reachable(Taps(0, 0), 0x8000) && After([]) == Taps(0, 0)
  {
  }

  /** The first result for a sample of 1000. */
  lemma {:induction false} FirstResult()
    ensures Output(After([]), 1000) == -760
  {
    assert After([]) == Taps(0, 0);
  }
}
