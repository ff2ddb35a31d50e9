/** What the three terms of the PID controller are (power-libperfmgr/aidl/PowerHintSession.cpp:54-119), each stated on the
    durations themselves and with the gain that its sign selects. */
module AdpfTerms {
  import opened Integers
  import opened AdpfPid

  // ---------- Units and bounds ----------

  function Times(g: real, x: int): real {
    g * x as real
  }

  function Per(x: real, n: int): real
    requires n > 0
  {
    x / n as real
  }

  /** How far a duration is from the target, in whole units of 100 us, toward zero. */
  function Deviation(target: int, x: int): int {
    if x >= target then (x - target) / 100000 else -((target - x) / 100000)
  }

  lemma ErrorIsDeviation(target: int, x: int)
    ensures Error(target, x) == Deviation(target, x) && NsTo100us(target) == Deviation(0, target)
  {
  }

  /** h is the whole part of x divided by i. */
  predicate IsWholePart(h: int, x: int, i: real) {
    if x >= 0 then 0.0 <= Times(i, h) <= x as real < Times(i, h + 1)
    else Times(i, h - 1) < x as real <= Times(i, h) <= 0.0
  }

  lemma WholePart(x: int, i: real)
    requires i > 0.0
    ensures IsWholePart(Trunc(x as real / i), x, i)
  {
    var q := x as real / i;
    var h := Trunc(q);
    assert x as real == i * q && (x >= 0 <==> q >= 0.0);
    hide Times, Trunc;
    Compares(i, h, q);
    Compares(i, h + 1, q);
    Compares(i, h - 1, q);
    Compares(i, h, 0.0);
    WholeOf(q);
  }

  lemma WholeOf(q: real)
    ensures
      var h := Trunc(q);
      if q >= 0.0 then 0.0 <= h as real <= q < (h + 1) as real else (h - 1) as real < q <= h as real <= 0.0
  {
  }

  lemma Compares(i: real, h: int, q: real)
    requires i > 0.0
    ensures Times(i, h) <= i * q <==> h as real <= q
    ensures Times(i, h) < i * q <==> h as real < q
    ensures i * 0.0 == 0.0
  {
  }

  /** The integral is kept between the whole parts of the bounds divided by the I gain, at zero without one. */
  lemma IntegralBounds(c: Config)
    requires c.i >= 0.0
    ensures
      var r := IntegralRange(c);
      if c.i == 0.0 then r == Range(0, 0) else IsWholePart(r.low, c.iLow, c.i) && IsWholePart(r.high, c.iHigh, c.i)
  {
    if c.i > 0.0 {
      WholePart(c.iLow, c.i);
      WholePart(c.iHigh, c.i);
    }
  }

  // ---------- Windows ----------

  /** How many of n samples a window takes: as many as it says, all of them for 0 and for more than there are. */
  function Taken(window: nat, n: nat): nat {
    if 1 <= window <= n then window else n
  }

  lemma StartIs(window: nat, n: nat)
    ensures Start(window, n) == n - Taken(window, n) && (n > 0 ==> Taken(window, n) > 0)
  {
  }

  /** The sum of the deviations of the last k samples. */
  function Total(target: int, xs: seq<int>, k: nat): int
    requires k <= |xs|
  {
    if k == 0 then 0 else Deviation(target, xs[|xs| - k]) + Total(target, xs, k - 1)
  }

  lemma {:induction false} ErrorSumFrom(target: int, xs: seq<int>, lo: nat, mid: nat, hi: nat)
    requires lo <= mid <= hi <= |xs|
    ensures ErrorSum(target, xs, lo, hi) == ErrorSum(target, xs, lo, mid) + ErrorSum(target, xs, mid, hi)
    decreases hi
  {
    if mid < hi {
      ErrorSumFrom(target, xs, lo, mid, hi - 1);
    }
  }

  lemma {:induction false} ErrorSumIsTotal(target: int, xs: seq<int>, k: nat)
    requires k <= |xs|
    ensures ErrorSum(target, xs, |xs| - k, |xs|) == Total(target, xs, k)
  {
    if k > 0 {
      var lo := |xs| - k;
      ErrorSumIsTotal(target, xs, k - 1);
      ErrorSumFrom(target, xs, lo, lo + 1, |xs|);
      ErrorIsDeviation(target, xs[lo]);
      assert ErrorSum(target, xs, lo, lo) == 0;
      assert ErrorSum(target, xs, lo, lo + 1) == Error(target, xs[lo]);
    }
  }

  /** The slope over the D window: from the last sample before it to its last sample, from the stored error if no other
      window reaches back further. */
  function Slope(w: Windows, target: int, previous: int, xs: seq<int>): int
    requires xs != []
  {
    var n, k := |xs|, Taken(w.d, |xs|);
    Deviation(target, xs[n - 1]) -
    if k < Taken(w.p, n) || k < Taken(w.i, n) then Deviation(target, xs[n - 1 - k]) else previous
  }

  lemma SlopeIs(w: Windows, target: int, previous: int, xs: seq<int>)
    requires xs != []
    ensures LastError(target, xs) - BaseError(w, target, previous, xs) == Slope(w, target, previous, xs)
  {
    var n, k := |xs|, Taken(w.d, |xs|);
    StartIs(w.p, n);
    StartIs(w.i, n);
    StartIs(w.d, n);
    ErrorIsDeviation(target, xs[n - 1]);
    if k < n {
      ErrorIsDeviation(target, xs[n - 1 - k]);
    }
  }

  // ---------- The terms ----------

  function OnlyP(c: Config): Config {
    c.(i := 0.0, dOver := 0.0, dUnder := 0.0)
  }

  function OnlyI(c: Config): Config {
    c.(po := 0.0, pu := 0.0, dOver := 0.0, dUnder := 0.0)
  }

  function OnlyD(c: Config): Config {
    c.(po := 0.0, pu := 0.0, i := 0.0)
  }

  lemma ZeroGain(x: real, n: real)
    requires n != 0.0
    ensures Gained(0.0, 0.0, x) == 0.0 && Over(0.0, n) == 0.0 && Trunc(0.0) == 0
  {
  }

  lemma NoP(c: Config, sum: int, n: nat)
    requires c.po == c.pu == 0.0 && n > 0
    ensures POut(c, sum, n) == 0
  {
    ZeroGain(sum as real, n as real);
  }

  lemma NoI(c: Config, integral: int)
    requires c.i == 0.0
    ensures IOut(c, integral) == 0
  {
    ZeroGain(integral as real, 1.0);
  }

  lemma NoD(c: Config, slope: int, dt: int, n: nat)
    requires c.dOver == c.dUnder == 0.0 && dt != 0 && n > 0
    ensures DOut(c, slope, dt, n) == 0
  {
    ZeroGain(slope as real, dt as real);
    ZeroGain(slope as real, n as real);
  }

  /** The output is the sum of what each term would give alone. */
  lemma Superposition(c: Config, target: int, integral: int, previous: int, xs: seq<int>)
    requires target >= UNIT && xs != []
    ensures NsTo100us(target) != 0
    ensures Output(c, target, integral, previous, xs) ==
            Output(OnlyP(c), target, integral, previous, xs) + Output(OnlyI(c), target, integral, previous, xs) +
            Output(OnlyD(c), target, integral, previous, xs)
  {
    hide POut, IOut, DOut, Integral, ErrorSum, BaseError, NsTo100us, IntegralRange;
    DtLaw(target);
    var n, w, dt := |xs|, c.windows, NsTo100us(target);
    var sum, slope := ErrorSum(target, xs, Start(w.p, n), n), LastError(target, xs) - BaseError(w, target, previous, xs);
    var p, i, d := OnlyP(c), OnlyI(c), OnlyD(c);
    NoP(i, sum, n - Start(w.p, n));
    NoP(d, sum, n - Start(w.p, n));
    NoI(p, Integral(IntegralRange(p), target, integral, xs, Start(w.i, n), n));
    NoI(d, Integral(IntegralRange(d), target, integral, xs, Start(w.i, n), n));
    NoD(p, slope, dt, n - Start(w.d, n));
    NoD(i, slope, dt, n - Start(w.d, n));
    SameTerms(c, sum, slope, dt, n - Start(w.p, n), n - Start(w.d, n));
    SameIntegral(c);
  }

  lemma SameTerms(c: Config, sum: int, slope: int, dt: int, n: nat, m: nat)
    requires dt != 0 && n > 0 && m > 0
    ensures POut(OnlyP(c), sum, n) == POut(c, sum, n) && DOut(OnlyD(c), slope, dt, m) == DOut(c, slope, dt, m)
  {
  }

  lemma SameIntegral(c: Config)
    ensures IntegralRange(OnlyI(c)) == IntegralRange(c) && forall x :: IOut(OnlyI(c), x) == IOut(c, x)
  {
  }

  lemma GainedIs(over: real, under: real, x: int)
    ensures Gained(over, under, x as real) == Times(if x > 0 then over else under, x)
  {
  }

  lemma POutIs(c: Config, sum: int, n: nat)
    requires n > 0
    ensures POut(c, sum, n) == Trunc(Per(Times(if sum > 0 then c.po else c.pu, sum), n))
  {
    hide Gained, Times, Trunc;
    GainedIs(c.po, c.pu, sum);
  }

  lemma IOutIs(c: Config, integral: int)
    ensures IOut(c, integral) == Trunc(Times(c.i, integral))
  {
    hide Gained, Times, Trunc;
    GainedIs(c.i, c.i, integral);
  }

  lemma DOutIs(c: Config, slope: int, dt: int, n: nat)
    requires dt > 0 && n > 0
    ensures DOut(c, slope, dt, n) == Trunc(Per(Per(Times(if slope > 0 then c.dOver else c.dUnder, slope), dt), n))
  {
    hide Gained, Times, Trunc;
    GainedIs(c.dOver, c.dUnder, slope);
  }

  /** The P term: the gain for the sign of the window's sum, times the mean deviation, toward zero. */
  lemma PTerm(c: Config, target: int, integral: int, previous: int, xs: seq<int>)
    requires target >= UNIT && xs != []
    ensures NsTo100us(target) != 0
    ensures
      var n := Taken(c.windows.p, |xs|);
      var sum := Total(target, xs, n);
      n > 0 && Output(OnlyP(c), target, integral, previous, xs) ==
               Trunc(Per(Times(if sum > 0 then c.po else c.pu, sum), n))
  {
    hide POut, IOut, DOut, Integral, ErrorSum, BaseError, NsTo100us, IntegralRange, Trunc, Times, Per;
    DtLaw(target);
    var w, all, p := c.windows, |xs|, OnlyP(c);
    var n := Taken(w.p, all);
    StartIs(w.p, all);
    StartIs(w.d, all);
    ErrorSumIsTotal(target, xs, n);
    POutIs(p, Total(target, xs, n), n);
    NoI(p, Integral(IntegralRange(p), target, integral, xs, Start(w.i, all), all));
    NoD(p, LastError(target, xs) - BaseError(w, target, previous, xs), NsTo100us(target), all - Start(w.d, all));
  }

  lemma {:induction false} SteadyTotal(target: int, xs: seq<int>, k: nat, e: int)
    requires k <= |xs| && forall i :: |xs| - k <= i < |xs| ==> Deviation(target, xs[i]) == e
    ensures Total(target, xs, k) == k * e
  {
    if k > 0 {
      SteadyTotal(target, xs, k - 1, e);
      assert k * e == (k - 1) * e + e;
    }
  }

  lemma MeanCancels(g: real, n: nat, e: int)
    requires n > 0
    ensures Per(Times(g, n * e), n) == Times(g, e) && (n * e > 0 <==> e > 0)
  {
    assert (n * e) as real == n as real * e as real;
    OverCancels(n as real, g * e as real);
    assert g * (n as real * e as real) == n as real * (g * e as real);
  }

  /** With every sample of the window e units from the target the P term is the truncation of po * e above the target and
      of pu * e below it, however long the window. */
  lemma SteadyP(c: Config, target: int, integral: int, previous: int, xs: seq<int>, e: int)
    requires target >= UNIT && xs != []
    requires forall i :: |xs| - Taken(c.windows.p, |xs|) <= i < |xs| ==> Deviation(target, xs[i]) == e
    ensures NsTo100us(target) != 0
    ensures Output(OnlyP(c), target, integral, previous, xs) == Trunc(Times(if e > 0 then c.po else c.pu, e))
  {
    hide Output, Trunc, NsTo100us, Times, Per;
    var n := Taken(c.windows.p, |xs|);
    PTerm(c, target, integral, previous, xs);
    SteadyTotal(target, xs, n, e);
    var g := if e > 0 then c.po else c.pu;
    MeanCancels(g, n, e);
    assert (if n * e > 0 then c.po else c.pu) == g;
  }

  /** The I term: the I gain times the clamped integral, toward zero. */
  lemma ITerm(c: Config, target: int, integral: int, previous: int, xs: seq<int>)
    requires target >= UNIT && xs != []
    ensures NsTo100us(target) != 0
    ensures
      var n := |xs|;
      Output(OnlyI(c), target, integral, previous, xs) ==
      Trunc(Times(c.i, Integral(IntegralRange(c), target, integral, xs, n - Taken(c.windows.i, n), n)))
  {
    hide POut, IOut, DOut, Integral, ErrorSum, BaseError, NsTo100us, IntegralRange, Trunc, Times, Per;
    DtLaw(target);
    var w, all, i := c.windows, |xs|, OnlyI(c);
    StartIs(w.i, all);
    StartIs(w.p, all);
    StartIs(w.d, all);
    IOutIs(i, Integral(IntegralRange(c), target, integral, xs, all - Taken(w.i, all), all));
    NoP(i, ErrorSum(target, xs, Start(w.p, all), all), all - Start(w.p, all));
    NoD(i, LastError(target, xs) - BaseError(w, target, previous, xs), NsTo100us(target), all - Start(w.d, all));
    SameIntegral(c);
  }

  /** One sample moves the integral by its deviation times the target in units, and no further than the bounds. */
  lemma IntegralStep(r: Range, target: int, start: int, xs: seq<int>, lo: nat, hi: nat)
    requires lo < hi <= |xs| && r.low <= r.high
    ensures
      var before := Integral(r, target, start, xs, lo, hi - 1);
      var after := Integral(r, target, start, xs, lo, hi);
      var free := before + Deviation(target, xs[hi - 1]) * Deviation(0, target);
      && r.low <= after <= r.high
      && (r.low <= free <= r.high ==> after == free)
      && (free < r.low ==> after == r.low) && (free > r.high ==> after == r.high)
    ensures Integral(r, target, start, xs, lo, lo) == start
  {
    ErrorIsDeviation(target, xs[hi - 1]);
  }

  /** The D term: the gain for the sign of the slope, times the slope, per unit of the target and per sample. */
  lemma DTerm(c: Config, target: int, integral: int, previous: int, xs: seq<int>)
    requires target >= UNIT && xs != []
    ensures NsTo100us(target) != 0
    ensures
      var n, dt := Taken(c.windows.d, |xs|), Deviation(0, target);
      var slope := Slope(c.windows, target, previous, xs);
      n > 0 && dt > 0 && Output(OnlyD(c), target, integral, previous, xs) ==
                         Trunc(Per(Per(Times(if slope > 0 then c.dOver else c.dUnder, slope), dt), n))
  {
    hide POut, IOut, DOut, Integral, ErrorSum, BaseError, IntegralRange, Trunc, Slope, NsTo100us, Deviation, Times, Per;
    DtLaw(target);
    var w, all, d := c.windows, |xs|, OnlyD(c);
    StartIs(w.d, all);
    StartIs(w.p, all);
    SlopeIs(w, target, previous, xs);
    ErrorIsDeviation(target, 0);
    DOutIs(d, Slope(w, target, previous, xs), NsTo100us(target), Taken(w.d, all));
    NoP(d, ErrorSum(target, xs, Start(w.p, all), all), all - Start(w.p, all));
    NoI(d, Integral(IntegralRange(d), target, integral, xs, Start(w.i, all), all));
  }

  lemma PerSwaps(x: real, n: nat, m: nat)
    requires n > 0 && m > 0
    ensures Per(Per(x, n), m) == Per(Per(x, m), n)
  {
  }

  lemma RampCancels(g: real, n: nat, k: int, dt: nat)
    requires n > 0 && dt > 0
    ensures Per(Per(Times(g, n * k), dt), n) == Per(Times(g, k), dt) && (n * k > 0 <==> k > 0)
  {
    hide Per, Times;
    PerSwaps(Times(g, n * k), dt, n);
    MeanCancels(g, n, k);
  }

  /** Over a ramp of k units per sample the D term is the truncation of dOver * k per unit of the target if it rises and
      of dUnder * k if it falls, however long the window. */
  lemma RampD(c: Config, target: int, integral: int, previous: int, xs: seq<int>, k: int)
    requires target >= UNIT && xs != []
    requires Slope(c.windows, target, previous, xs) == Taken(c.windows.d, |xs|) * k
    ensures NsTo100us(target) != 0 && Deviation(0, target) > 0
    ensures Output(OnlyD(c), target, integral, previous, xs) ==
            Trunc(Per(Times(if k > 0 then c.dOver else c.dUnder, k), Deviation(0, target)))
  {
    hide Output, Trunc, NsTo100us, Slope, Times, Per;
    DTerm(c, target, integral, previous, xs);
    var g, n := if k > 0 then c.dOver else c.dUnder, Taken(c.windows.d, |xs|);
    RampCancels(g, n, k, Deviation(0, target));
    assert (if n * k > 0 then c.dOver else c.dUnder) == g;
  }

  /** A gain that its sign does not select does not show in the output, for any batch. */
  lemma UnusedGains(c: Config, c': Config, target: int, integral: int, previous: int, xs: seq<int>)
    requires target >= UNIT && xs != [] && c' == c.(po := c'.po, pu := c'.pu, dOver := c'.dOver, dUnder := c'.dUnder)
    requires if Total(target, xs, Taken(c.windows.p, |xs|)) > 0 then c'.po == c.po else c'.pu == c.pu
    requires if Slope(c.windows, target, previous, xs) > 0 then c'.dOver == c.dOver else c'.dUnder == c.dUnder
    ensures NsTo100us(target) != 0
    ensures Output(c, target, integral, previous, xs) == Output(c', target, integral, previous, xs)
  {
    hide Output, Trunc, NsTo100us, Slope, Total, Integral, IntegralRange, Times, Per;
    Superposition(c, target, integral, previous, xs);
    Superposition(c', target, integral, previous, xs);
    PTerm(c, target, integral, previous, xs);
    PTerm(c', target, integral, previous, xs);
    DTerm(c, target, integral, previous, xs);
    DTerm(c', target, integral, previous, xs);
    assert OnlyI(c) == OnlyI(c');
  }

  // ---------- The next minimum ----------

  /** The current minimum plus the output, kept between the bounds, as long as both fit in 32 bits. */
  lemma NextMinIs(c: Config, current: int, output: int)
    requires c.uclampMinLow <= c.uclampMinHigh && FitsInt32(output) && FitsInt32(current + output)
    ensures
      var next, sum := NextUclampMin(c, current, output), current + output;
      && c.uclampMinLow <= next <= c.uclampMinHigh
      && (c.uclampMinLow <= sum <= c.uclampMinHigh ==> next == sum)
      && (sum < c.uclampMinLow ==> next == c.uclampMinLow) && (sum > c.uclampMinHigh ==> next == c.uclampMinHigh)
  {
  }
}
