/** The clock servo: a delay-locked loop and the bandwidth estimator that tunes it, over exact
    reals. Of the exponential and the square root only their range is assumed. */
module Servo {
  import opened Prelude

  const PI: real := 884_279_719_003_555.0 / 281_474_976_710_656.0
  const BW_MAX: real := 0.128
  const BW_MIN: real := 0.016
  const ADAPTIVE_BW_MIN: real := 0.001
  const BW_PERIOD_NSEC: nat := 3_000_000_000

  ghost predicate IsMath(exp: real -> real, sqrt: real -> real) {
    && (forall x :: x <= 0.0 ==> 0.0 < exp(x) <= 1.0)
    && (forall x :: x >= 0.0 ==> sqrt(x) >= 0.0)
  }

  function Abs(x: real): real { if x < 0.0 then -x else x }

  function ClampReal(x: real, lo: real, hi: real): real { if x < lo then lo else if x > hi then hi else x }

  function MaxReal(a: real, b: real): real { if a >= b then a else b }

  /** The loop's filter stages and gains. */
  datatype Loop = Loop(bw: real, z1: real, z2: real, z3: real, w0: real, w1: real, w2: real)

  const RELOCKED := Loop(0.0, 0.0, 0.0, 0.0, 0.0, 0.0, 0.0)

  /** One stage of the filter: a step towards its input. */
  function Mix(z: real, input: real, w: real): real { z + w * (input - z) }

  /** `y` is `z` moved by `w` times `x`. The equation is folded: it takes a mention of `Unfold`, as in
      `MovesIff`, to bring it into a proof, which keeps products out of the search. */
  ghost predicate Moves(y: real, z: real, w: real, x: real) {
    forall k: int {:trigger Unfold(k, w, x)} :: Unfold(k, w, x) ==> y == z + w * x
  }

  ghost predicate Unfold(k: int, w: real, x: real) { true }

  lemma MovesIff(y: real, z: real, w: real, x: real)
    ensures Moves(y, z, w, x) <==> y == z + w * x
  {
    assert Unfold(0, w, x);
  }

  /** What the filter's input is scaled by at bandwidth `bw`. */
  function InputGain(bw: real, rate: nat): real
    requires rate > 0
  {
    3.0 * PI * bw / rate as real
  }

  function Width(bw: real, period: nat, rate: nat): real
    requires rate > 0
  {
    2.0 * PI * bw * period as real / rate as real
  }

  function Tuned(l: Loop, bw: real, period: nat, rate: nat, decay: real): Loop
    requires rate > 0
  {
    l.(bw := bw, w0 := 1.0 - decay, w1 := InputGain(bw, rate), w2 := Width(bw, period, rate) / 1.5)
  }

  /** The gain ceiling of a geometry: deliveries coarser than the period lower it. */
  function BwCap(period: nat, granularity: nat): (cap: real)
    ensures BW_MIN <= cap <= BW_MAX
  {
    if granularity == 0 || period == 0 then BW_MAX
    else ClampReal(BW_MAX * period as real / granularity as real, BW_MIN, BW_MAX)
  }

  function MaxErr(setupPeriod: nat, stride: nat): (m: real)
    ensures m >= 0.0
  {
    MaxReal(setupPeriod as real / 2.0, 256.0 * stride as real)
  }

  /** The largest input gain a geometry allows. */
  function TopGain(rate: nat): real { if rate == 0 then 0.0 else InputGain(BW_MAX, rate) }

  /** Where both filter stages stay: the largest scaled error. */
  function Bound(rate: nat, maxErr: real): real { TopGain(rate) * maxErr }

  /** The bandwidth is zero or within its range, the gains belong to it, and both filter stages stay
      within the bound. */
  ghost predicate Bounded(l: Loop, cap: real, gain: real, bound: real) {
    && (l.bw == 0.0 || ADAPTIVE_BW_MIN <= l.bw <= cap)
    && 0.0 <= l.w0 <= 1.0 && 0.0 <= l.w1 <= gain && 0.0 <= l.w2
    && Abs(l.z1) <= bound && Abs(l.z2) <= bound
  }

  // ---------------------------------------------------------------- what each step keeps

  lemma BoundNonNegative(rate: nat, maxErr: real)
    requires maxErr >= 0.0
    ensures TopGain(rate) >= 0.0 && Bound(rate, maxErr) >= 0.0
  {
    if rate > 0 {
      GainPositive(BW_MAX, rate);
    }
    Product(TopGain(rate), maxErr);
  }

  /** Retuning within the range keeps the stages. */
  lemma TuneStaysBounded(l: Loop, bw: real, period: nat, rate: nat, decay: real, cap: real, bound: real)
    requires rate > 0 && Bounded(l, cap, TopGain(rate), bound)
    requires ADAPTIVE_BW_MIN <= bw <= cap <= BW_MAX && 0.0 < decay <= 1.0
    ensures Bounded(Tuned(l, bw, period, rate, decay), cap, TopGain(rate), bound)
  {
    GainPositive(bw, rate);
    WidthNonNegative(bw, period, rate);
  }

  /** The gains of a bandwidth, from the definition of the loop. */
  lemma GainsOfBandwidth(l: Loop, bw: real, period: nat, rate: nat, exp: real -> real)
    requires rate > 0
    ensures var t := Tuned(l, bw, period, rate, exp(-20.0 * Width(bw, period, rate)));
            && t.bw == bw && t.z1 == l.z1 && t.z2 == l.z2 && t.z3 == l.z3
            && t.w1 * rate as real == 3.0 * PI * bw && t.w2 * 1.5 * rate as real == 2.0 * PI * bw * period as real
            && t.w0 == 1.0 - exp(-30.0 * t.w2)
  {
    var w := Width(bw, period, rate);
    assert w * rate as real == 2.0 * PI * bw * period as real;
    assert -30.0 * (w / 1.5) == -20.0 * w;
  }

  /** The ceiling is the classic maximum exactly while deliveries are no coarser than the period, the
      classic minimum from eight periods on, and between them falls with the delivery size. */
  lemma CapIff(period: nat, granularity: nat)
    requires period > 0 && granularity > 0
    ensures BwCap(period, granularity) == BW_MAX <==> granularity <= period
    ensures BwCap(period, granularity) == BW_MIN <==> granularity >= 8 * period
    ensures period <= granularity <= 8 * period ==>
              BwCap(period, granularity) * granularity as real == BW_MAX * period as real
  {
    var p, g := period as real, granularity as real;
    var q := BW_MAX * p / g;
    assert q * g == BW_MAX * p;
    CompareQuotient(q, BW_MAX, p, g);
    CompareEighth(q, p, g);
  }

  lemma CompareQuotient(q: real, m: real, p: real, g: real)
    requires g > 0.0 && m > 0.0 && q * g == m * p
    ensures q >= m <==> p >= g
    ensures q > m <==> p > g
  {
    if p >= g {
      SameSign(q - m, g, m * (p - g));
    } else {
      SameSign(m - q, g, m * (g - p));
    }
    assert p > g ==> m * (p - g) > 0.0;
    assert p < g ==> m * (g - p) > 0.0;
  }

  /** The sign of a quotient's difference. */
  lemma SameSign(d: real, g: real, n: real)
    requires g > 0.0 && d * g == n
    ensures (d > 0.0 <==> n > 0.0) && (d >= 0.0 <==> n >= 0.0)
  {}

  lemma CompareEighth(q: real, p: real, g: real)
    requires g > 0.0 && q * g == BW_MAX * p
    ensures q <= BW_MIN <==> g >= 8.0 * p
    ensures q < BW_MIN <==> g > 8.0 * p
  {
    SameSign(BW_MIN - q, g, BW_MIN * (g - 8.0 * p));
  }

  /** A device's own timestamps keep the whole variance; of a fill reading's the quantization, a 24th of
      the squared step in frames, is forgiven and nothing more. */
  lemma ForgivenVariance(errVar: real, granularity: nat, stride: nat)
    ensures Variance(errVar, granularity, stride, true) == if errVar < 0.0 then -errVar else errVar
    ensures var step := granularity as real / Max(stride, 1) as real;
            var whole := Variance(errVar, granularity, stride, true);
            Variance(errVar, granularity, stride, false) == if whole <= step * step / 24.0 then 0.0
                                                            else whole - step * step / 24.0
  {}

  /** Within its range the bandwidth is a thousandth of mean plus deviation; a quiet loop relaxes to the
      floor. */
  lemma BandwidthAskedFor(avg: real, variance: real, cap: real, sqrt: real -> real)
    requires cap >= ADAPTIVE_BW_MIN
    ensures var asked := (if avg < 0.0 then -avg else avg) + sqrt(variance);
            && (1000.0 * ADAPTIVE_BW_MIN <= asked <= 1000.0 * cap ==> 1000.0 * Wanted(avg, variance, cap, sqrt) == asked)
            && (asked <= 1000.0 * ADAPTIVE_BW_MIN ==> Wanted(avg, variance, cap, sqrt) == ADAPTIVE_BW_MIN)
            && (asked >= 1000.0 * cap ==> Wanted(avg, variance, cap, sqrt) == cap)
  {}

  lemma InputWithin(w1: real, gain: real, err: real, maxErr: real)
    requires 0.0 <= w1 <= gain && Abs(err) <= maxErr
    ensures Abs(w1 * err) <= gain * maxErr
  {
    ScaleWithin(w1, err, maxErr);
    ProductMono(w1, gain, maxErr);
  }

  lemma ScaledWithin(w1: real, rate: nat, err: real, maxErr: real)
    requires 0.0 <= w1 <= TopGain(rate) && Abs(err) <= maxErr
    ensures Abs(w1 * err) <= Bound(rate, maxErr)
  {
    InputWithin(w1, TopGain(rate), err, maxErr);
  }

  lemma Product(a: real, b: real)
    requires a >= 0.0 && b >= 0.0
    ensures a * b >= 0.0
  {}

  lemma ProductMono(a: real, b: real, c: real)
    requires a <= b && c >= 0.0
    ensures a * c <= b * c
  {}

  lemma ScaleWithin(w: real, z: real, bound: real)
    requires w >= 0.0 && Abs(z) <= bound
    ensures Abs(w * z) <= w * bound
  {
    ProductMono(z, bound, w);
    ProductMono(-bound, z, w);
    assert (-bound) * w == -(bound * w);
  }

  lemma Distribute(a: real, b: real, c: real)
    ensures a * (b - c) == a * b - a * c
  {}

  /** A stage that starts within a bound and is fed from within it stays there. */
  lemma MixStaysWithin(z: real, input: real, w: real, bound: real)
    requires Abs(z) <= bound && Abs(input) <= bound && 0.0 <= w <= 1.0
    ensures Abs(Mix(z, input, w)) <= bound
  {
    MixSplits(z, input, w);
    ScaleWithin(w, input, bound);
    ScaleWithin(1.0 - w, z, bound);
    Shares(w, bound);
    SumWithin(w * input, (1.0 - w) * z, w * bound, (1.0 - w) * bound);
  }

  lemma SumWithin(a: real, b: real, x: real, y: real)
    requires Abs(a) <= x && Abs(b) <= y
    ensures Abs(a + b) <= x + y
  {}

  lemma MixSplits(z: real, input: real, w: real)
    ensures Mix(z, input, w) == w * input + (1.0 - w) * z
  {
    Distribute(w, input, z);
    Distribute(z, 1.0, w);
  }

  lemma Shares(w: real, bound: real)
    ensures w * bound + (1.0 - w) * bound == bound
  {
    Distribute(bound, 1.0, w);
  }

  lemma GainPositive(bw: real, rate: nat)
    requires rate > 0 && 0.0 <= bw <= BW_MAX
    ensures 0.0 <= InputGain(bw, rate) <= InputGain(BW_MAX, rate)
  {
    assert 3.0 * PI * bw <= 3.0 * PI * BW_MAX;
  }

  lemma WidthNonNegative(bw: real, period: nat, rate: nat)
    requires rate > 0 && bw >= 0.0
    ensures Width(bw, period, rate) >= 0.0
  {
    Product(2.0 * PI * bw, period as real);
  }

  lemma Quotient(a: real, q: real, r: real)
    requires r != 0.0 && a == q * r
    ensures a / r == q
  {}

  /** The gain the code derives from the width does not depend on the period. */
  lemma GainOfWidth(bw: real, period: nat, rate: nat)
    requires period > 0 && rate > 0
    ensures Width(bw, period, rate) * 1.5 / period as real == InputGain(bw, rate)
  {
    var p, r, x := period as real, rate as real, 2.0 * PI * bw;
    var y := x / r;
    assert y * r == x;
    assert x * p == (y * p) * r;
    Quotient(x * p, y * p, r);
    assert Width(bw, period, rate) == x * p / r == y * p;
    assert (y * p) * 1.5 == (y * 1.5) * p;
    Quotient(Width(bw, period, rate) * 1.5, y * 1.5, p);
    assert 3.0 * PI * bw == (y * 1.5) * r;
    Quotient(3.0 * PI * bw, y * 1.5, r);
  }

  // ---------------------------------------------------------------- the objects

  class SpaDll {
    var bw: real
    var z1: real
    var z2: real
    var z3: real
    var w0: real
    var w1: real
    var w2: real

    /** The scaled error of the last update. */
    var input: real

    function View(): Loop
      reads this
    {
      Loop(bw, z1, z2, z3, w0, w1, w2)
    }

    constructor ()
      ensures View() == RELOCKED
    {
      bw, z1, z2, z3, w0, w1, w2, input := 0.0, 0.0, 0.0, 0.0, 0.0, 0.0, 0.0, 0.0;
    }

    method Init()
      modifies this
      ensures View() == RELOCKED
    {
      bw, z1, z2, z3, w0, w1, w2 := 0.0, 0.0, 0.0, 0.0, 0.0, 0.0, 0.0;
    }

    method SetBw(bw: real, period: nat, rate: nat, exp: real -> real)
      requires period > 0 && rate > 0
      modifies this
      ensures View() == Tuned(old(View()), bw, period, rate, exp(-20.0 * Width(bw, period, rate)))
    {
      var w := 2.0 * PI * bw * period as real / rate as real;
      GainOfWidth(bw, period, rate);
      w0 := 1.0 - exp(-20.0 * w);
      w1 := w * 1.5 / period as real;
      w2 := w / 1.5;
      this.bw := bw;
    }

    /** One update: two low-pass stages and an integrator, each fed by the one before. The stages
        stay within any bound their input respects, and the integrator moves by `creep` at most. */
    method Update(err: real, ghost cap: real, ghost gain: real, ghost bound: real, ghost creep: real)
      returns (corr: real)
      requires Bounded(View(), cap, gain, bound) && Abs(w1 * err) <= bound && Moves(creep, 0.0, w2, bound)
      modifies this`input, this`z1, this`z2, this`z3
      ensures Bounded(View(), cap, gain, bound) && Abs(z3 - old(z3)) <= creep
      ensures Moves(input, 0.0, w1, err) && Moves(z1, old(z1), w0, input - old(z1))
      ensures Moves(z2, old(z2), w0, z1 - old(z2)) && Moves(z3, old(z3), w2, z2) && corr == 1.0 - (z2 + z3)
    {
      Feed(err, bound);
      FirstStage(bound);
      SecondStage(bound);
      ThirdStage(bound, creep);
      corr := 1.0 - (z2 + z3);
    }

    method Feed(err: real, ghost bound: real)
      requires Abs(w1 * err) <= bound
      modifies this`input
      ensures Moves(input, 0.0, w1, err) && Abs(input) <= bound
    {
      input := w1 * err;
      MovesIff(input, 0.0, w1, err);
    }

    method FirstStage(ghost bound: real)
      requires 0.0 <= w0 <= 1.0 && Abs(z1) <= bound && Abs(input) <= bound
      modifies this`z1
      ensures Moves(z1, old(z1), w0, input - old(z1)) && Abs(z1) <= bound
    {
      MixStaysWithin(z1, input, w0, bound);
      z1 := z1 + w0 * (input - z1);
      MovesIff(z1, old(z1), w0, input - old(z1));
    }

    method SecondStage(ghost bound: real)
      requires 0.0 <= w0 <= 1.0 && Abs(z1) <= bound && Abs(z2) <= bound
      modifies this`z2
      ensures Moves(z2, old(z2), w0, z1 - old(z2)) && Abs(z2) <= bound
    {
      MixStaysWithin(z2, z1, w0, bound);
      z2 := z2 + w0 * (z1 - z2);
      MovesIff(z2, old(z2), w0, z1 - old(z2));
    }

    method ThirdStage(ghost bound: real, ghost creep: real)
      requires 0.0 <= w2 && Abs(z2) <= bound && Moves(creep, 0.0, w2, bound)
      modifies this`z3
      ensures Moves(z3, old(z3), w2, z2) && Abs(z3 - old(z3)) <= creep
    {
      ScaleWithin(w2, z2, bound);
      MovesIff(creep, 0.0, w2, bound);
      z3 := z3 + w2 * z2;
      MovesIff(z3, old(z3), w2, z2);
    }
  }

  /** The variance that sets the bandwidth: a fill reading carries the device's own quantization,
      half of which is taken off. */
  function Variance(errVar: real, granularity: nat, stride: nat, timing: bool): (v: real)
    ensures v >= 0.0
  {
    if timing then Abs(errVar)
    else
      var step := granularity as real / Max(stride, 1) as real;
      MaxReal(Abs(errVar) - step * step / 24.0, 0.0)
  }

  /** The bandwidth that an error of that mean and variance asks for. */
  function Wanted(avg: real, variance: real, cap: real, sqrt: real -> real): (bw: real)
    ensures cap >= ADAPTIVE_BW_MIN ==> ADAPTIVE_BW_MIN <= bw <= cap
  {
    ClampReal((Abs(avg) + sqrt(variance)) / 1000.0, ADAPTIVE_BW_MIN, cap)
  }

  /** One step of the running mean and variance, over `n` cycles a second. */
  ghost predicate Estimated(avg: real, v: real, e: real, n: real, avg': real, v': real) {
    && avg' * (n + 1.0) == avg * n + (e - avg)
    && v' * (n + 1.0) == v * n + (e - avg) * (e - avg')
  }

  /** One error the estimator was given. */
  datatype Sample = Sample(err: real, now: nat, timing: bool)

  class BwAdapt {
    ghost var log: seq<Sample>
    var errAvg: real
    var errVar: real
    var baseTime: nat
    var stride: nat
    var granularity: nat
    var period: nat
    var rate: nat
    var timingSeen: bool

    constructor ()
      ensures rate == 0 && period == 0 && granularity == 0
    {
      errAvg, errVar, baseTime, timingSeen := 0.0, 0.0, 0, false;
      stride, granularity, period, rate, log := 0, 0, 0, 0, [];
    }

    /** The committed geometry survives a relock. */
    method Reset()
      modifies this`errAvg, this`errVar, this`baseTime, this`timingSeen
      ensures errAvg == 0.0 && errVar == 0.0 && baseTime == 0 && !timingSeen
    {
      errAvg, errVar, baseTime, timingSeen := 0.0, 0.0, 0, false;
    }

    method Configure(stride: nat, granularity: nat, period: nat, rate: nat)
      modifies this`stride, this`granularity, this`period, this`rate, this`timingSeen
      ensures this.stride == stride && this.granularity == granularity
      ensures this.period == period && this.rate == rate && !timingSeen
    {
      this.stride, this.granularity, this.period, this.rate := stride, granularity, period, rate;
      timingSeen := false;
    }

    /** Mean and variance after one more error, in frames. */
    method Estimate(err: real, quantized: bool)
      requires period > 0
      modifies this`errAvg, this`errVar, this`timingSeen
      ensures Estimated(old(errAvg), old(errVar), err / Max(stride, 1) as real, rate as real / period as real,
                        errAvg, errVar)
      ensures timingSeen == (old(timingSeen) || !quantized)
    {
      var e := err / Max(stride, 1) as real;
      var cycles := rate as real / period as real;
      var avg := (errAvg * cycles + (e - errAvg)) / (cycles + 1.0);
      errVar := (errVar * cycles + (e - errAvg) * (e - avg)) / (cycles + 1.0);
      errAvg := avg;
      timingSeen := timingSeen || !quantized;
    }

    /** Follows the error and retunes the loop after each window of three seconds; a relocked loop
        starts at the gain ceiling; an unconfigured estimator steers nothing. */
    method Update(dll: SpaDll, err: real, now: nat, quantized: bool, exp: real -> real, sqrt: real -> real)
      requires IsMath(exp, sqrt) && (rate > 0 ==> period > 0)
      modifies this`log, this`errAvg, this`errVar, this`baseTime, this`timingSeen, dll
      ensures log == old(log) + [Sample(err, now, !quantized)]
      ensures rate == 0 ==> dll.View() == old(dll.View())
      ensures rate > 0 && old(dll.bw) == 0.0 ==>
                dll.View() == Tuned(old(dll.View()), BwCap(period, granularity), period, rate,
                                    exp(-20.0 * Width(BwCap(period, granularity), period, rate)))
      ensures rate > 0 && old(dll.bw) != 0.0 ==>
                var start := if old(baseTime) == 0 then now else old(baseTime);
                if now > start + BW_PERIOD_NSEC then
                  ADAPTIVE_BW_MIN <= dll.bw <= BwCap(period, granularity) && baseTime == now && !timingSeen
                  && dll.View() == Tuned(old(dll.View()), dll.bw, period, rate,
                                         exp(-20.0 * Width(dll.bw, period, rate)))
                else dll.View() == old(dll.View()) && baseTime == start
      ensures rate > 0 && old(dll.bw) != 0.0 ==>
                Estimated(old(errAvg), old(errVar), err / Max(stride, 1) as real, rate as real / period as real,
                          errAvg, errVar)
      ensures rate > 0 && old(dll.bw) != 0.0 && dll.View() != old(dll.View()) ==>
                dll.bw == Wanted(errAvg, Variance(errVar, granularity, stride, old(timingSeen) || !quantized),
                                 BwCap(period, granularity), sqrt)
      ensures rate > 0 && old(dll.bw) == 0.0 ==> errAvg == 0.0 && errVar == 0.0 && baseTime == now
    {
      log := log + [Sample(err, now, !quantized)];
      Track(dll, err, now, quantized, exp, sqrt);
    }

    method Track(dll: SpaDll, err: real, now: nat, quantized: bool, exp: real -> real, sqrt: real -> real)
      requires IsMath(exp, sqrt) && (rate > 0 ==> period > 0)
      modifies this`errAvg, this`errVar, this`baseTime, this`timingSeen, dll
      ensures rate == 0 ==> dll.View() == old(dll.View())
      ensures rate > 0 && old(dll.bw) == 0.0 ==>
                dll.View() == Tuned(old(dll.View()), BwCap(period, granularity), period, rate,
                                    exp(-20.0 * Width(BwCap(period, granularity), period, rate)))
      ensures rate > 0 && old(dll.bw) != 0.0 ==>
                var start := if old(baseTime) == 0 then now else old(baseTime);
                if now > start + BW_PERIOD_NSEC then
                  ADAPTIVE_BW_MIN <= dll.bw <= BwCap(period, granularity) && baseTime == now && !timingSeen
                  && dll.View() == Tuned(old(dll.View()), dll.bw, period, rate,
                                         exp(-20.0 * Width(dll.bw, period, rate)))
                else dll.View() == old(dll.View()) && baseTime == start
      ensures rate > 0 && old(dll.bw) != 0.0 ==>
                Estimated(old(errAvg), old(errVar), err / Max(stride, 1) as real, rate as real / period as real,
                          errAvg, errVar)
      ensures rate > 0 && old(dll.bw) != 0.0 && dll.View() != old(dll.View()) ==>
                dll.bw == Wanted(errAvg, Variance(errVar, granularity, stride, old(timingSeen) || !quantized),
                                 BwCap(period, granularity), sqrt)
      ensures rate > 0 && old(dll.bw) == 0.0 ==> errAvg == 0.0 && errVar == 0.0 && baseTime == now
    {
      if rate == 0 {
        return;
      }
      var ceiling := BwCap(period, granularity);
      if dll.bw == 0.0 {
        dll.SetBw(ceiling, period, rate, exp);
        errAvg, errVar, baseTime, timingSeen := 0.0, 0.0, now, false;
        return;
      }
      if baseTime == 0 {
        baseTime := now;
      }
      Estimate(err, quantized);
      if SatSub(now, baseTime) > BW_PERIOD_NSEC {
        baseTime := now;
        dll.SetBw(Wanted(errAvg, Variance(errVar, granularity, stride, timingSeen), ceiling, sqrt),
                  period, rate, exp);
        timingSeen := false;
      }
    }
  }

  /** The servo of one port, as the driver runs it each cycle. */
  class ServoPort {
    const dll: SpaDll
    const adapt: BwAdapt
    var setupPeriod: nat
    var stride: nat

    /** The largest input gain of the committed geometry, and where the filter stages stay. */
    ghost var gain: real
    ghost var limit: real

    function Cap(): real
      reads adapt
    {
      BwCap(adapt.period, adapt.granularity)
    }

    ghost predicate Valid()
      reads this, adapt, dll
    {
      Sound() && limit == Bound(adapt.rate, MaxErr(setupPeriod, stride))
    }

    ghost predicate Sound()
      reads this, adapt, dll
    {
      && (adapt.rate > 0 ==> adapt.period > 0)
      && gain == TopGain(adapt.rate) && 0.0 <= gain && 0.0 <= limit
      && Bounded(dll.View(), Cap(), gain, limit)
    }

    constructor ()
      ensures Valid() && fresh(dll) && fresh(adapt)
    {
      dll := new SpaDll();
      adapt := new BwAdapt();
      setupPeriod, stride, gain, limit := 0, 1, 0.0, 0.0;
    }

    /** A new geometry restarts the loop. A zero period is refused. */
    method CommitGeometry(period: nat, quantum: nat, stride: u32, deviceRate: u32) returns (ok: bool)
      requires Valid()
      modifies this, dll, adapt
      ensures Valid() && ok == (period > 0)
      ensures ok ==> dll.View() == RELOCKED && setupPeriod == period && this.stride == stride
                     && adapt.period == period && adapt.rate == SatMul(deviceRate, stride)
    {
      if period == 0 {
        return false;
      }
      setupPeriod, this.stride := period, stride;
      dll.Init();
      adapt.Reset();
      adapt.Configure(stride, quantum, period, SatMul(deviceRate, stride));
      gain, limit := TopGain(adapt.rate), Bound(adapt.rate, MaxErr(setupPeriod, stride));
      BoundNonNegative(adapt.rate, MaxErr(setupPeriod, stride));
      return true;
    }

    /** One cycle: the error, cut to the geometry's range, steers the loop through its two stages `y1` and
        `y2` and the integrator `y3`, and the estimator sees it. A loop whose answer is outside a factor of
        two relocks; else a loop without gains goes to the ceiling. */
    method Cycle(errRaw: real, now: nat, timing: bool, exp: real -> real, sqrt: real -> real)
      returns (corr: real, ghost e: real, ghost x: real, ghost y1: real, ghost y2: real, ghost y3: real)
      requires Valid() && IsMath(exp, sqrt)
      modifies dll, adapt`log, adapt`errAvg, adapt`errVar, adapt`baseTime, adapt`timingSeen
      ensures Valid() && 0.5 <= corr <= 2.0 && corr == 1.0 - (dll.z2 + dll.z3)
      ensures dll.View() == RELOCKED || Abs(dll.z3 - old(dll.z3)) <= old(dll.w2 * limit)
      ensures var half, frames := setupPeriod as real / 2.0, 256.0 * stride as real;
              var m := if half >= frames then half else frames;
              e == if errRaw < -m then -m else if errRaw > m then m else errRaw
      ensures Moves(x, 0.0, old(dll.w1), e) && Moves(y1, old(dll.z1), old(dll.w0), x - old(dll.z1))
      ensures Moves(y2, old(dll.z2), old(dll.w0), y1 - old(dll.z2)) && Moves(y3, old(dll.z3), old(dll.w2), y2)
      ensures adapt.log == old(adapt.log) + [Sample(e, now, timing)]
      ensures if 0.5 <= 1.0 - (y2 + y3) <= 2.0 then
                dll.z1 == y1 && dll.z2 == y2 && dll.z3 == y3
                && (adapt.rate == 0 ==> dll.bw == old(dll.bw))
                && (adapt.rate > 0 && old(dll.bw) == 0.0 ==> dll.bw == BwCap(adapt.period, adapt.granularity))
              else dll.View() == RELOCKED && corr == 1.0 && adapt.errAvg == 0.0 && adapt.errVar == 0.0
    {
      ghost var creep := dll.w2 * limit;
      MovesIff(creep, 0.0, dll.w2, limit);
      var m := MaxErr(setupPeriod, stride);
      var err := ClampReal(errRaw, -m, m);
      e := err;
      corr, x, y1, y2, y3 := Turn(err, now, timing, exp, sqrt, creep);
    }

    lemma ScaledErrorStays(err: real)
      requires Valid() && Abs(err) <= MaxErr(setupPeriod, stride)
      ensures Abs(dll.w1 * err) <= limit
    {
      ScaledWithin(dll.w1, adapt.rate, err, MaxErr(setupPeriod, stride));
    }

    method Turn(err: real, now: nat, timing: bool, exp: real -> real, sqrt: real -> real, ghost creep: real)
      returns (corr: real, ghost x: real, ghost y1: real, ghost y2: real, ghost y3: real)
      requires Valid() && IsMath(exp, sqrt) && Abs(err) <= MaxErr(setupPeriod, stride)
      requires Moves(creep, 0.0, dll.w2, limit)
      modifies dll, adapt`log, adapt`errAvg, adapt`errVar, adapt`baseTime, adapt`timingSeen
      ensures Valid() && 0.5 <= corr <= 2.0 && corr == 1.0 - (dll.z2 + dll.z3)
      ensures dll.View() == RELOCKED || Abs(dll.z3 - old(dll.z3)) <= creep
      ensures Moves(x, 0.0, old(dll.w1), err) && Moves(y1, old(dll.z1), old(dll.w0), x - old(dll.z1))
      ensures Moves(y2, old(dll.z2), old(dll.w0), y1 - old(dll.z2)) && Moves(y3, old(dll.z3), old(dll.w2), y2)
      ensures adapt.log == old(adapt.log) + [Sample(err, now, timing)]
      ensures if 0.5 <= 1.0 - (y2 + y3) <= 2.0 then
                dll.z1 == y1 && dll.z2 == y2 && dll.z3 == y3
                && (adapt.rate == 0 ==> dll.bw == old(dll.bw))
                && (adapt.rate > 0 && old(dll.bw) == 0.0 ==> dll.bw == Cap())
              else dll.View() == RELOCKED && corr == 1.0 && adapt.errAvg == 0.0 && adapt.errVar == 0.0
    {
      ScaledErrorStays(err);
      corr := Steer(err, Cap(), creep);
      x, y1, y2, y3 := dll.input, dll.z1, dll.z2, dll.z3;
      Adapt(err, now, timing, exp, sqrt);
      corr := Settle(corr);
    }

    /** A correction outside a factor of two is discarded along with the loop that made it. */
    method Settle(answer: real) returns (corr: real)
      requires Sound() && answer == 1.0 - (dll.z2 + dll.z3)
      modifies dll, adapt`errAvg, adapt`errVar, adapt`baseTime, adapt`timingSeen
      ensures Sound() && 0.5 <= corr <= 2.0 && corr == 1.0 - (dll.z2 + dll.z3)
      ensures if 0.5 <= answer <= 2.0 then dll.View() == old(dll.View()) && corr == answer
              else dll.View() == RELOCKED && corr == 1.0 && adapt.errAvg == 0.0 && adapt.errVar == 0.0
    {
      corr := answer;
      if !(0.5 <= corr <= 2.0) {
        dll.Init();
        adapt.Reset();
        corr := 1.0;
      }
    }

    method Steer(err: real, ghost cap: real, ghost creep: real) returns (corr: real)
      requires Bounded(dll.View(), cap, gain, limit) && Abs(dll.w1 * err) <= limit && Moves(creep, 0.0, dll.w2, limit)
      modifies dll`input, dll`z1, dll`z2, dll`z3
      ensures Bounded(dll.View(), cap, gain, limit) && Abs(dll.z3 - old(dll.z3)) <= creep
      ensures corr == 1.0 - (dll.z2 + dll.z3)
      ensures Moves(dll.input, 0.0, dll.w1, err) && Moves(dll.z1, old(dll.z1), dll.w0, dll.input - old(dll.z1))
      ensures Moves(dll.z2, old(dll.z2), dll.w0, dll.z1 - old(dll.z2)) && Moves(dll.z3, old(dll.z3), dll.w2, dll.z2)
    {
      corr := dll.Update(err, cap, gain, limit, creep);
    }

    method Adapt(err: real, now: nat, timing: bool, exp: real -> real, sqrt: real -> real)
      requires Sound() && IsMath(exp, sqrt)
      modifies dll, adapt`log, adapt`errAvg, adapt`errVar, adapt`baseTime, adapt`timingSeen
      ensures Sound() && dll.z1 == old(dll.z1) && dll.z2 == old(dll.z2) && dll.z3 == old(dll.z3)
      ensures adapt.log == old(adapt.log) + [Sample(err, now, timing)]
      ensures adapt.rate == 0 ==> dll.bw == old(dll.bw)
      ensures adapt.rate > 0 && old(dll.bw) == 0.0 ==> dll.bw == Cap()
    {
      ghost var was := dll.View();
      adapt.Update(dll, err, now, !timing, exp, sqrt);
      if adapt.rate > 0 && dll.View() != was {
        WidthNonNegative(dll.bw, adapt.period, adapt.rate);
        TuneStaysBounded(was, dll.bw, adapt.period, adapt.rate,
                         exp(-20.0 * Width(dll.bw, adapt.period, adapt.rate)), Cap(), limit);
      }
    }
  }

  /** From equal states a larger error never gives a larger correction, and a smaller one if the
      loop has any gain. */
  lemma LargerErrorSlowsTheClock(l: Loop, e: real, e': real)
    requires 0.0 <= l.w0 && 0.0 <= l.w1 && 0.0 <= l.w2 && e <= e'
    ensures var y1, y1' := Mix(l.z1, l.w1 * e, l.w0), Mix(l.z1, l.w1 * e', l.w0);
            var y2, y2' := Mix(l.z2, y1, l.w0), Mix(l.z2, y1', l.w0);
            var y3, y3' := l.z3 + l.w2 * y2, l.z3 + l.w2 * y2';
            && 1.0 - (y2' + y3') <= 1.0 - (y2 + y3)
            && (e < e' && l.w0 > 0.0 && l.w1 > 0.0 ==> 1.0 - (y2' + y3') < 1.0 - (y2 + y3))
  {
    var y1, y1' := Mix(l.z1, l.w1 * e, l.w0), Mix(l.z1, l.w1 * e', l.w0);
    var y2, y2' := Mix(l.z2, y1, l.w0), Mix(l.z2, y1', l.w0);
    StepRises(0.0, l.w1, e, e');
    StepRises(l.z1, l.w0, l.w1 * e - l.z1, l.w1 * e' - l.z1);
    StepRises(l.z2, l.w0, y1 - l.z2, y1' - l.z2);
    StepRises(l.z3, l.w2, y2, y2');
  }

  lemma StepRises(z: real, w: real, x: real, x': real)
    requires w >= 0.0 && x <= x'
    ensures z + w * x <= z + w * x' && (x < x' && w > 0.0 ==> z + w * x < z + w * x')
  {
    ProductMono(x, x', w);
    if x < x' && w > 0.0 {
      Positive(w, x' - x);
      Distribute(w, x', x);
    }
  }

  lemma Positive(a: real, b: real)
    requires a > 0.0 && b > 0.0
    ensures a * b > 0.0
  {}
}
