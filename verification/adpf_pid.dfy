/** The ADPF PID controller (power-libperfmgr/aidl/PowerHintSession.cpp, gains and clamps from
    power-libperfmgr/libperfmgr/AdpfConfig.cc). Doubles are reals, int64 is unbounded, casts to int
    truncate toward zero, and the final cast to 32 bits and the sum of two 32-bit values wrap. */
module AdpfPid {
  import opened Options
  import opened Integers

  /** A gain that depends on the sign of what it multiplies. */
  function Gained(over: real, under: real, x: real): real {
    if x > 0.0 then over * x else under * x
  }

  function Over(x: real, d: real): real
    requires d != 0.0
  {
    x / d
  }

  lemma MulMonotone(a: real, x: real, y: real)
    requires a >= 0.0 && x <= y
    ensures a * x <= a * y
  {
  }

  lemma OverMonotone(x: real, y: real, d: real)
    requires d > 0.0 && x <= y
    ensures Over(x, d) <= Over(y, d)
  {
  }

  /** The gain switch at zero keeps order: both branches vanish there. */
  lemma GainedMonotone(over: real, under: real, x: real, y: real)
    requires over >= 0.0 && under >= 0.0 && x <= y
    ensures Gained(over, under, x) <= Gained(over, under, y)
  {
    if x > 0.0 {
      MulMonotone(over, x, y);
    } else if y > 0.0 {
      MulMonotone(under, x, 0.0);
      MulMonotone(over, 0.0, y);
    } else {
      MulMonotone(under, x, y);
    }
  }

  const UNIT := 100000

  function NsTo100us(ns: int): int {
    TruncDiv(ns, UNIT)
  }

  function Min(a: int, b: int): int { if b < a then b else a }

  function Max(a: int, b: int): int { if a < b then b else a }

  // ---------- Configuration ----------

  datatype Windows = Windows(p: nat, i: nat, d: nat)

  datatype Config = Config(
    pidOn: bool, po: real, pu: real, i: real, iHigh: int, iLow: int, dOver: real, dUnder: real,
    uclampMinHigh: int, uclampMinLow: int, windows: Windows)

  predicate GainsNonNegative(c: Config) {
    c.po >= 0.0 && c.pu >= 0.0 && c.i >= 0.0 && c.dOver >= 0.0 && c.dUnder >= 0.0
  }

  function HighDivI(c: Config): int {
    if c.i == 0.0 then 0 else Trunc(c.iHigh as real / c.i)
  }

  function LowDivI(c: Config): int {
    if c.i == 0.0 then 0 else Trunc(c.iLow as real / c.i)
  }

  datatype Range = Range(low: int, high: int)

  function IntegralRange(c: Config): Range {
    Range(LowDivI(c), HighDivI(c))
  }

  lemma ClampOrdered(c: Config)
    requires c.iLow <= c.iHigh && c.i >= 0.0
    ensures LowDivI(c) <= HighDivI(c)
  {
    if c.i > 0.0 {
      OverMonotone(c.iLow as real, c.iHigh as real, c.i);
      TruncMonotone(Over(c.iLow as real, c.i), Over(c.iHigh as real, c.i));
    }
  }

  /** The index a sampling window starts at. */
  function Start(window: nat, length: nat): nat {
    if window == 0 || window > length then 0 else length - window
  }

  // ---------- The controller's terms ----------

  function Error(target: int, duration: int): int {
    NsTo100us(duration - target)
  }

  function ErrorSum(target: int, xs: seq<int>, lo: nat, hi: nat): int
    requires lo <= hi <= |xs|
    decreases hi
  {
    if lo == hi then 0 else ErrorSum(target, xs, lo, hi - 1) + Error(target, xs[hi - 1])
  }

  function Weighted(error: int, dt: int): int {
    error * dt
  }

  function Clamped(r: Range, integral: int): int {
    Max(r.low, Min(r.high, integral))
  }

  /** The integral after samples lo to hi, clamped at every sample. */
  function Integral(r: Range, target: int, start: int, xs: seq<int>, lo: nat, hi: nat): int
    requires lo <= hi <= |xs|
    decreases hi
  {
    if lo == hi then start
    else Clamped(r, Integral(r, target, start, xs, lo, hi - 1) + Weighted(Error(target, xs[hi - 1]), NsTo100us(target)))
  }

  /** The loop's first index. */
  function First(w: Windows, n: nat): nat {
    Min(Min(Start(w.p, n), Start(w.i, n)), Start(w.d, n))
  }

  function LastError(target: int, xs: seq<int>): int
    requires xs != []
  {
    Error(target, xs[|xs| - 1])
  }

  /** The error just before the D window, the stored one if the loop does not start earlier. */
  function BaseError(w: Windows, target: int, previous: int, xs: seq<int>): int {
    var d := Start(w.d, |xs|);
    if d == First(w, |xs|) then previous else Error(target, xs[d - 1])
  }

  function POut(c: Config, errSum: int, n: nat): int
    requires n > 0
  {
    Trunc(Over(Gained(c.po, c.pu, errSum as real), n as real))
  }

  function IOut(c: Config, integral: int): int {
    Trunc(Gained(c.i, c.i, integral as real))
  }

  function DOut(c: Config, derivativeSum: int, dt: int, n: nat): int
    requires dt != 0 && n > 0
  {
    Trunc(Over(Over(Gained(c.dOver, c.dUnder, derivativeSum as real), dt as real), n as real))
  }

  function Output(c: Config, target: int, integral: int, previous: int, xs: seq<int>): int
    requires xs != [] && NsTo100us(target) != 0
  {
    var n, w := |xs|, c.windows;
    POut(c, ErrorSum(target, xs, Start(w.p, n), n), n - Start(w.p, n))
    + IOut(c, Integral(IntegralRange(c), target, integral, xs, Start(w.i, n), n))
    + DOut(c, LastError(target, xs) - BaseError(w, target, previous, xs), NsTo100us(target), n - Start(w.d, n))
  }

  /** The D term divides by the target in units of 100 us, which is zero exactly for targets below one unit. */
  lemma DtLaw(target: int)
    ensures NsTo100us(target) == 0 <==> -UNIT < target < UNIT
    ensures NsTo100us(target) > 0 <==> target >= UNIT
  {
  }

  function NextUclampMin(c: Config, current: int, output: int): int {
    Max(c.uclampMinLow, Min(c.uclampMinHigh, ToInt32(current + ToInt32(output))))
  }

  // ---------- The session ----------

  /** NoValue: the D term is a division by zero, whose conversion to an integer the language leaves undefined. */
  datatype Status = Ok | IllegalState | IllegalArgument | NoValue

  class PowerHintSession {
    var closed: bool
    var active: bool
    var targetNs: int
    var pidControlVariable: int
    var updateCount: nat
    var integralError: int
    var previousError: int

    constructor (durationNs: int)
      ensures !closed && active && targetNs == durationNs
      ensures pidControlVariable == 0 && updateCount == 0 && integralError == 0 && previousError == 0
    {
      closed, active, targetNs := false, true, durationNs;
      pidControlVariable, updateCount, integralError, previousError := 0, 0, 0, 0;
    }

    /** The loop sums differences of neighbouring errors; the sum is the last error minus the one before
        the D window. */
    method ConvertWorkDurationToBoostByPid(c: Config, durations: seq<int>) returns (output: Option<int>)
      requires durations != []
      modifies this`integralError, this`previousError
      ensures output.None? <==> -UNIT < targetNs < UNIT
      ensures output.Some? ==>
                && NsTo100us(targetNs) != 0
                && output.value == Output(c, targetNs, old(integralError), old(previousError), durations)
      ensures integralError ==
              Integral(IntegralRange(c), targetNs, old(integralError), durations,
                       Start(c.windows.i, |durations|), |durations|)
      ensures previousError == LastError(targetNs, durations)
    {
      hide POut, IOut, DOut, IntegralRange, Weighted, NsTo100us;
      var length := |durations|;
      var pStart := Start(c.windows.p, length);
      var iStart := Start(c.windows.i, length);
      var dStart := Start(c.windows.d, length);
      var dt := NsTo100us(targetNs);
      DtLaw(targetNs);
      var errSum, derivativeSum := 0, 0;
      var first := Min(Min(pStart, iStart), dStart);
      var range := IntegralRange(c);
      ghost var base := BaseError(c.windows, targetNs, previousError, durations);
      for i := first to length
        invariant errSum == if i <= pStart then 0 else ErrorSum(targetNs, durations, pStart, i)
        invariant i <= dStart ==> derivativeSum == 0
        invariant i >= dStart ==> derivativeSum == previousError - base
        invariant integralError ==
                  if i <= iStart then old(integralError)
                  else Integral(range, targetNs, old(integralError), durations, iStart, i)
        invariant previousError == if i == first then old(previousError) else Error(targetNs, durations[i - 1])
      {
        var error := NsTo100us(durations[i] - targetNs);
        if i >= dStart {
          derivativeSum := derivativeSum + error - previousError;
        }
        if i >= pStart {
          errSum := errSum + error;
        }
        if i >= iStart {
          integralError := integralError + Weighted(error, dt);
          integralError := Min(range.high, integralError);
          integralError := Max(range.low, integralError);
        }
        previousError := error;
      }
      if dt == 0 {
        return None;
      }
      var pOut := POut(c, errSum, length - pStart);
      var iOut := IOut(c, integralError);
      var dOut := DOut(c, derivativeSum, dt, length - dStart);
      output := Some(pOut + iOut + dOut);
    }

    method ReportActualWorkDuration(c: Config, durations: seq<int>) returns (status: Status)
      modifies this`integralError, this`previousError, this`pidControlVariable, this`updateCount
      ensures status == if closed || targetNs == 0 then IllegalState
                        else if durations == [] then IllegalArgument
                        else if !active then IllegalState
                        else if c.pidOn && -UNIT < targetNs < UNIT then NoValue
                        else Ok
      ensures status == IllegalState || status == IllegalArgument ==> unchanged(this)
      ensures status == Ok || status == NoValue ==> updateCount == old(updateCount) + 1
      ensures status == Ok && !c.pidOn ==>
                && pidControlVariable == c.uclampMinHigh
                && integralError == old(integralError) && previousError == old(previousError)
      ensures status == Ok && c.pidOn ==>
                && NsTo100us(targetNs) != 0
                && pidControlVariable ==
                   NextUclampMin(c, old(pidControlVariable),
                                 Output(c, targetNs, old(integralError), old(previousError), durations))
                && integralError ==
                   Integral(IntegralRange(c), targetNs, old(integralError), durations,
                       Start(c.windows.i, |durations|), |durations|)
                && previousError == LastError(targetNs, durations)
    {
      if closed || targetNs == 0 {
        return IllegalState;
      }
      if durations == [] {
        return IllegalArgument;
      }
      if !active {
        return IllegalState;
      }
      updateCount := updateCount + 1;
      if !c.pidOn {
        pidControlVariable := c.uclampMinHigh;
        return Ok;
      }
      var output := ConvertWorkDurationToBoostByPid(c, durations);
      if output.None? {
        return NoValue;
      }
      var nextMin := Min(c.uclampMinHigh, ToInt32(pidControlVariable + ToInt32(output.value)));
      nextMin := Max(c.uclampMinLow, nextMin);
      pidControlVariable := nextMin;
      return Ok;
    }
  }

  // ---------- Monotonicity ----------

  ghost predicate Below(xs: seq<int>, ys: seq<int>) {
    |xs| == |ys| && forall i :: 0 <= i < |xs| ==> xs[i] <= ys[i]
  }

  lemma WeightedMonotone(x: int, y: int, d: int)
    requires d >= 0 && x <= y
    ensures Weighted(x, d) <= Weighted(y, d)
  {
  }

  lemma ErrorMonotone(target: int, x: int, y: int)
    requires x <= y
    ensures Error(target, x) <= Error(target, y)
  {
  }

  lemma {:induction false} ErrorSumMonotone(target: int, xs: seq<int>, ys: seq<int>, lo: nat, hi: nat)
    requires Below(xs, ys) && lo <= hi <= |xs|
    ensures ErrorSum(target, xs, lo, hi) <= ErrorSum(target, ys, lo, hi)
    decreases hi
  {
    if lo < hi {
      ErrorSumMonotone(target, xs, ys, lo, hi - 1);
      ErrorMonotone(target, xs[hi - 1], ys[hi - 1]);
    }
  }

  lemma {:induction false} IntegralMonotone(r: Range, target: int, start: int, xs: seq<int>, ys: seq<int>, lo: nat, hi: nat)
    requires Below(xs, ys) && target >= UNIT && lo <= hi <= |xs|
    ensures Integral(r, target, start, xs, lo, hi) <= Integral(r, target, start, ys, lo, hi)
    decreases hi
  {
    if lo < hi {
      IntegralMonotone(r, target, start, xs, ys, lo, hi - 1);
      ErrorMonotone(target, xs[hi - 1], ys[hi - 1]);
      WeightedMonotone(Error(target, xs[hi - 1]), Error(target, ys[hi - 1]), NsTo100us(target));
    }
  }

  lemma POutMonotone(c: Config, x: int, y: int, n: nat)
    requires GainsNonNegative(c) && x <= y && n > 0
    ensures POut(c, x, n) <= POut(c, y, n)
  {
    var gx, gy := Gained(c.po, c.pu, x as real), Gained(c.po, c.pu, y as real);
    GainedMonotone(c.po, c.pu, x as real, y as real);
    OverMonotone(gx, gy, n as real);
    TruncMonotone(Over(gx, n as real), Over(gy, n as real));
  }

  lemma IOutMonotone(c: Config, x: int, y: int)
    requires GainsNonNegative(c) && x <= y
    ensures IOut(c, x) <= IOut(c, y)
  {
    GainedMonotone(c.i, c.i, x as real, y as real);
    TruncMonotone(Gained(c.i, c.i, x as real), Gained(c.i, c.i, y as real));
  }

  lemma DOutMonotone(c: Config, x: int, y: int, dt: nat, n: nat)
    requires GainsNonNegative(c) && x <= y && dt > 0 && n > 0
    ensures DOut(c, x, dt, n) <= DOut(c, y, dt, n)
  {
    var gx, gy := Gained(c.dOver, c.dUnder, x as real), Gained(c.dOver, c.dUnder, y as real);
    GainedMonotone(c.dOver, c.dUnder, x as real, y as real);
    OverMonotone(gx, gy, dt as real);
    OverMonotone(Over(gx, dt as real), Over(gy, dt as real), n as real);
    TruncMonotone(Over(Over(gx, dt as real), n as real), Over(Over(gy, dt as real), n as real));
  }

  /** The D window reaches back at least as far as the P and I windows, whatever the batch length. */
  predicate DWindowLongest(w: Windows) {
    w.d == 0 || (0 < w.p <= w.d && 0 < w.i <= w.d)
  }

  lemma OutputMonotone(c: Config, target: int, integral: int, previous: int, xs: seq<int>, ys: seq<int>)
    requires GainsNonNegative(c) && DWindowLongest(c.windows)
    requires target >= UNIT && xs != [] && Below(xs, ys)
    ensures Output(c, target, integral, previous, xs) <= Output(c, target, integral, previous, ys)
  {
    hide POut, IOut, DOut, IntegralRange, Integral, ErrorSum;
    var n, w := |xs|, c.windows;
    var p, i, d := Start(w.p, n), Start(w.i, n), Start(w.d, n);
    ErrorSumMonotone(target, xs, ys, p, n);
    POutMonotone(c, ErrorSum(target, xs, p, n), ErrorSum(target, ys, p, n), n - p);
    var r := IntegralRange(c);
    IntegralMonotone(r, target, integral, xs, ys, i, n);
    IOutMonotone(c, Integral(r, target, integral, xs, i, n), Integral(r, target, integral, ys, i, n));
    assert First(w, n) == d;
    ErrorMonotone(target, xs[n - 1], ys[n - 1]);
    DOutMonotone(c, Error(target, xs[n - 1]) - previous, Error(target, ys[n - 1]) - previous, NsTo100us(target), n - d);
  }

  // ---------- The 32-bit sum ----------

  /** How many times a sum went around in 32 bits. */
  function Lap(x: int): int {
    (x + 0x8000_0000) / 0x1_0000_0000
  }

  lemma WrapOnce(current: int, output: int)
    ensures ToInt32(current + ToInt32(output)) == current + output - Lap(current + output) * 0x1_0000_0000
  {
  }

  lemma LapMonotone(x: int, y: int)
    requires x <= y
    ensures Lap(x) <= Lap(y)
  {
  }

  lemma LapBounds(x: int)
    ensures Lap(x) * 0x1_0000_0000 - 0x8000_0000 <= x < Lap(x) * 0x1_0000_0000 + 0x8000_0000
  {
  }

  lemma LapIs(k: int, x: int)
    requires k * 0x1_0000_0000 - 0x8000_0000 <= x < k * 0x1_0000_0000 + 0x8000_0000
    ensures Lap(x) == k
  {
  }

  lemma NextUclampMinMonotone(c: Config, current: int, x: int, y: int)
    requires x <= y && Lap(current + x) == Lap(current + y)
    ensures NextUclampMin(c, current, x) <= NextUclampMin(c, current, y)
  {
    hide ToInt32, Lap;
    WrapOnce(current, x);
    WrapOnce(current, y);
  }

  /** Of the outputs from lo to hi a larger one never gives a lower minimum. */
  ghost predicate MonotoneOn(c: Config, current: int, lo: int, hi: int) {
    forall x, y :: lo <= x <= y <= hi ==> NextUclampMin(c, current, x) <= NextUclampMin(c, current, y)
  }

  /** The next minimum is monotone in the output over a range if and only if the sum with the current minimum goes
      around in 32 bits equally often at both ends. */
  lemma UclampLaw(c: Config, current: int, lo: int, hi: int)
    requires FitsInt32(c.uclampMinLow) && FitsInt32(c.uclampMinHigh) && c.uclampMinLow < c.uclampMinHigh && lo <= hi
    ensures MonotoneOn(c, current, lo, hi) <==> Lap(current + lo) == Lap(current + hi)
  {
    hide NextUclampMin, Lap;
    if Lap(current + lo) == Lap(current + hi) {
      forall x, y | lo <= x <= y <= hi
        ensures NextUclampMin(c, current, x) <= NextUclampMin(c, current, y)
      {
        LapMonotone(current + lo, current + x);
        LapMonotone(current + x, current + y);
        LapMonotone(current + y, current + hi);
        NextUclampMinMonotone(c, current, x, y);
      }
    } else {
      var x := LastOfLap(c, current, lo, hi);
      assert NextUclampMin(c, current, x) > NextUclampMin(c, current, x + 1);
    }
  }

  /** The largest 32-bit sum gives the upper bound, the next one the lower bound. */
  lemma LastOfLap(c: Config, current: int, lo: int, hi: int) returns (x: int)
    requires FitsInt32(c.uclampMinLow) && FitsInt32(c.uclampMinHigh) && c.uclampMinLow < c.uclampMinHigh && lo <= hi
    requires Lap(current + lo) != Lap(current + hi)
    ensures lo <= x < hi
    ensures NextUclampMin(c, current, x) == c.uclampMinHigh && NextUclampMin(c, current, x + 1) == c.uclampMinLow
  {
    var k := Lap(current + lo);
    x := k * 0x1_0000_0000 + 0x7FFF_FFFF - current;
    LapMonotone(current + lo, current + hi);
    LapBounds(current + lo);
    LapBounds(current + hi);
    LapIs(k, current + x);
    LapIs(k + 1, current + x + 1);
    hide Lap, ToInt32;
    WrapOnce(current, x);
    WrapOnce(current, x + 1);
  }

  // ---------- Outputs that fit ----------

  function Abs(x: int): nat {
    if x < 0 then -x else x
  }

  /** No gain above g, no sample further than e units of 100 us from the target, nor the stored error, and
      bounds that leave room in 32 bits for the sum with the current minimum. */
  predicate Moderate(c: Config, target: int, previous: int, current: int, xs: seq<int>, g: real, e: nat) {
    && GainsNonNegative(c) && c.po <= g && c.pu <= g && c.dOver <= g && c.dUnder <= g
    && c.iLow <= c.iHigh && Abs(previous) <= e
    && (forall i :: 0 <= i < |xs| ==> Abs(xs[i] - target) <= e * UNIT)
    && Mul(g, (3 * e) as real) + (Max(Abs(c.iLow), Abs(c.iHigh)) + Abs(current)) as real <= 2147483647.0
  }

  /** x is at most b away from zero. */
  predicate Near(x: real, b: real) {
    -b <= x <= b
  }

  lemma TruncNear(x: real, b: real)
    requires Near(x, b)
    ensures Near(Trunc(x) as real, b)
  {
  }

  function Mul(x: real, y: real): real {
    x * y
  }

  lemma MulLeft(a: real, g: real, b: real)
    requires a <= g && b >= 0.0
    ensures Mul(a, b) <= Mul(g, b)
  {
  }

  lemma MulRight(a: real, x: real, y: real)
    requires a >= 0.0 && x <= y
    ensures Mul(a, x) <= Mul(a, y) && Mul(a, -y) == -Mul(a, y)
  {
  }

  lemma MulNear(a: real, x: real, g: real, b: real)
    requires 0.0 <= a <= g && Near(x, b)
    ensures Near(Mul(a, x), Mul(g, b))
  {
    hide Mul;
    MulRight(a, x, b);
    MulRight(a, -b, x);
    MulRight(a, b, b);
    MulLeft(a, g, b);
  }

  lemma GainedNear(over: real, under: real, x: real, g: real, b: real)
    requires 0.0 <= over <= g && 0.0 <= under <= g && Near(x, b)
    ensures Near(Gained(over, under, x), Mul(g, b))
  {
    MulNear(over, x, g, b);
    MulNear(under, x, g, b);
    assert Gained(over, under, x) == if x > 0.0 then Mul(over, x) else Mul(under, x);
  }

  lemma OverNear(x: real, b: real, d: real)
    requires Near(x, b) && d >= 1.0
    ensures Near(Over(x, d), b)
  {
    OverShrinks(b, d);
    OverMonotone(x, b, d);
    OverMonotone(-b, x, d);
  }

  lemma OverShrinks(b: real, d: real)
    requires b >= 0.0 && d >= 1.0
    ensures 0.0 <= Over(b, d) <= b && Over(-b, d) == -Over(b, d)
  {
    MulMonotone(b, 1.0, d);
    OverMonotone(b, b * d, d);
    OverMonotone(0.0, b, d);
    OverCancels(d, b);
    assert Over(0.0, d) == 0.0;
  }

  lemma ErrorNear(target: int, x: int, e: nat)
    requires Abs(x - target) <= e * UNIT
    ensures Abs(Error(target, x)) <= e
  {
  }

  lemma {:induction false} ErrorSumNear(target: int, xs: seq<int>, lo: nat, hi: nat, e: nat)
    requires lo <= hi <= |xs| && forall i :: 0 <= i < |xs| ==> Abs(xs[i] - target) <= e * UNIT
    ensures Abs(ErrorSum(target, xs, lo, hi)) <= (hi - lo) * e
    decreases hi
  {
    if lo < hi {
      ErrorSumNear(target, xs, lo, hi - 1, e);
      ErrorNear(target, xs[hi - 1], e);
      assert (hi - lo) * e == (hi - 1 - lo) * e + e;
    }
  }

  lemma Distributes(g: real, n: nat, e: nat)
    requires n > 0
    ensures Mul(g, (n * e) as real) == n as real * Mul(g, e as real)
  {
    assert (n * e) as real == n as real * e as real;
  }

  lemma MeanNear(y: real, m: real, b: real)
    requires m > 0.0 && Near(y, m * b)
    ensures Near(Over(y, m), b)
  {
    OverCancels(m, b);
    OverCancels(m, -b);
    OverMonotone(y, m * b, m);
    OverMonotone(m * -b, y, m);
  }

  lemma POutNear(c: Config, sum: int, n: nat, g: real, e: nat)
    requires 0.0 <= c.po <= g && 0.0 <= c.pu <= g && n > 0 && Abs(sum) <= n * e
    ensures Near(POut(c, sum, n) as real, Mul(g, e as real))
  {
    hide Mul, Gained, Over;
    GainedNear(c.po, c.pu, sum as real, g, (n * e) as real);
    Distributes(g, n, e);
    var y, b := Gained(c.po, c.pu, sum as real), Mul(g, e as real);
    MeanNear(y, n as real, b);
    TruncNear(Over(y, n as real), b);
  }

  lemma DOutNear(c: Config, sum: int, dt: int, n: nat, g: real, e: nat)
    requires 0.0 <= c.dOver <= g && 0.0 <= c.dUnder <= g && dt > 0 && n > 0 && Abs(sum) <= 2 * e
    ensures Near(DOut(c, sum, dt, n) as real, Mul(g, (2 * e) as real))
  {
    hide Mul, Gained, Over;
    var b := Mul(g, (2 * e) as real);
    var y := Gained(c.dOver, c.dUnder, sum as real);
    GainedNear(c.dOver, c.dUnder, sum as real, g, (2 * e) as real);
    OverNear(y, b, dt as real);
    OverNear(Over(y, dt as real), b, n as real);
    TruncNear(Over(Over(y, dt as real), n as real), b);
  }

  lemma MulBack(i: real, x: real)
    requires i > 0.0
    ensures Mul(i, x / i) == x && Mul(i, 0.0) == 0.0
  {
  }

  /** The divided bound, multiplied back, does not exceed the bound. */
  lemma BoundComesBack(bound: int, i: real)
    requires i > 0.0
    ensures Near(Mul(i, Trunc(bound as real / i) as real), Abs(bound) as real)
  {
    var r := bound as real / i;
    MulBack(i, bound as real);
    hide Mul;
    if r >= 0.0 {
      MulRight(i, 0.0, Trunc(r) as real);
      MulRight(i, Trunc(r) as real, r);
    } else {
      MulRight(i, Trunc(r) as real, 0.0);
      MulRight(i, r, Trunc(r) as real);
    }
  }

  lemma GainedOnce(i: real, x: real)
    ensures Gained(i, i, x) == Mul(i, x) && Mul(0.0, x) == 0.0
  {
  }

  lemma IOutNear(c: Config, integral: int)
    requires c.i >= 0.0 && LowDivI(c) <= integral <= HighDivI(c)
    ensures Near(IOut(c, integral) as real, Max(Abs(c.iLow), Abs(c.iHigh)) as real)
  {
    hide Mul, Gained, Trunc;
    GainedOnce(c.i, integral as real);
    if c.i > 0.0 {
      BoundComesBack(c.iLow, c.i);
      BoundComesBack(c.iHigh, c.i);
      MulRight(c.i, LowDivI(c) as real, integral as real);
      MulRight(c.i, integral as real, HighDivI(c) as real);
    }
    TruncNear(Gained(c.i, c.i, integral as real), Max(Abs(c.iLow), Abs(c.iHigh)) as real);
  }

  lemma OutputFits(c: Config, target: int, integral: int, previous: int, current: int, xs: seq<int>, g: real, e: nat)
    requires target >= UNIT && xs != [] && Moderate(c, target, previous, current, xs, g, e)
    ensures NsTo100us(target) != 0
    ensures
      var output := Output(c, target, integral, previous, xs);
      FitsInt32(output) && FitsInt32(current + output)
  {
    hide POut, IOut, DOut, IntegralRange, Integral, ErrorSum, Near, Mul;
    DtLaw(target);
    var n, w, r := |xs|, c.windows, e as real;
    var p, i, d := Start(w.p, n), Start(w.i, n), Start(w.d, n);
    var dt := NsTo100us(target);
    ErrorSumNear(target, xs, p, n, e);
    POutNear(c, ErrorSum(target, xs, p, n), n - p, g, e);
    IntegralInBounds(c, target, integral, xs, i, n);
    IOutNear(c, Integral(IntegralRange(c), target, integral, xs, i, n));
    BaseNear(c, target, previous, current, xs, g, e);
    DOutNear(c, LastError(target, xs) - BaseError(w, target, previous, xs), dt, n - d, g, e);
    ThreeFit(POut(c, ErrorSum(target, xs, p, n), n - p),
             IOut(c, Integral(IntegralRange(c), target, integral, xs, i, n)),
             DOut(c, LastError(target, xs) - BaseError(w, target, previous, xs), dt, n - d), g, e,
             Max(Abs(c.iLow), Abs(c.iHigh)), current);
  }

  lemma BaseNear(c: Config, target: int, previous: int, current: int, xs: seq<int>, g: real, e: nat)
    requires xs != [] && Moderate(c, target, previous, current, xs, g, e)
    ensures Abs(LastError(target, xs) - BaseError(c.windows, target, previous, xs)) <= 2 * e
  {
    var d := Start(c.windows.d, |xs|);
    ErrorNear(target, xs[|xs| - 1], e);
    if d != First(c.windows, |xs|) {
      ErrorNear(target, xs[d - 1], e);
    }
  }

  lemma ThirdsAdd(g: real, e: nat)
    ensures Mul(g, (3 * e) as real) == Mul(g, e as real) + Mul(g, (2 * e) as real)
  {
    var r := e as real;
    assert (3 * e) as real == r + (2 * e) as real;
  }

  lemma ThreeFit(p: int, i: int, d: int, g: real, e: nat, m: int, current: int)
    requires Near(p as real, Mul(g, e as real)) && Near(i as real, m as real) && Near(d as real, Mul(g, (2 * e) as real))
    requires Mul(g, (3 * e) as real) + (m + Abs(current)) as real <= 2147483647.0
    ensures FitsInt32(p + i + d) && FitsInt32(current + (p + i + d))
  {
    hide Mul;
    ThirdsAdd(g, e);
    var room := (0x7FFF_FFFF - Abs(current)) as real;
    assert -room <= (p + i + d) as real <= room;
  }

  /** Pointwise longer durations never lower the next uclamp minimum. */
  lemma NextUclampMonotone(c: Config, target: int, integral: int, previous: int, current: int, xs: seq<int>, ys: seq<int>,
                           g: real, e: nat)
    requires DWindowLongest(c.windows) && target >= UNIT && xs != [] && Below(xs, ys)
    requires Moderate(c, target, previous, current, xs, g, e) && Moderate(c, target, previous, current, ys, g, e)
    ensures NsTo100us(target) != 0
    ensures NextUclampMin(c, current, Output(c, target, integral, previous, xs)) <=
            NextUclampMin(c, current, Output(c, target, integral, previous, ys))
  {
    hide Output, NextUclampMin, Mul;
    OutputFits(c, target, integral, previous, current, xs, g, e);
    OutputFits(c, target, integral, previous, current, ys, g, e);
    OutputMonotone(c, target, integral, previous, xs, ys);
    NextUclampMinMonotone(c, current, Output(c, target, integral, previous, xs), Output(c, target, integral, previous, ys));
  }

  /** Without that room it fails: a lone I gain, an integral one below its bound and a current minimum of one. On
      target the sum is 2^31 - 1, and one unit above it the sum wraps around and the minimum drops to its lowest. */
  lemma LongerLowersMinimum()
    ensures
      var c := Config(true, 0.0, 0.0, 1.0, 0x7FFF_FFFF, 0, 0.0, 0.0, 1024, 0, Windows(0, 0, 0));
      var xs, ys, integral := [UNIT], [2 * UNIT], 0x7FFF_FFFE;
      && DWindowLongest(c.windows) && Below(xs, ys)
      && NextUclampMin(c, 1, Output(c, UNIT, integral, 0, xs)) == 1024
      && NextUclampMin(c, 1, Output(c, UNIT, integral, 0, ys)) == 0
  {
    var c := Config(true, 0.0, 0.0, 1.0, 0x7FFF_FFFF, 0, 0.0, 0.0, 1024, 0, Windows(0, 0, 0));
    OnlyI(c, 0x7FFF_FFFE, UNIT);
    OnlyI(c, 0x7FFF_FFFE, 2 * UNIT);
  }

  lemma OnlyI(c: Config, integral: int, x: int)
    requires c.po == c.pu == c.dOver == c.dUnder == 0.0 && c.i == 1.0 && c.windows == Windows(0, 0, 0)
    ensures Output(c, UNIT, integral, 0, [x]) == Max(c.iLow, Min(c.iHigh, integral + NsTo100us(x - UNIT)))
  {
    assert Integral(IntegralRange(c), UNIT, integral, [x], 0, 0) == integral;
    assert Weighted(Error(UNIT, x), 1) == NsTo100us(x - UNIT);
    assert IntegralRange(c) == Range(c.iLow, c.iHigh);
  }

  ghost predicate MonotoneFor(w: Windows) {
    forall c: Config, target, integral, previous, xs, ys ::
      c.windows == w && GainsNonNegative(c) && target >= UNIT && xs != [] && Below(xs, ys) ==>
        Output(c, target, integral, previous, xs) <= Output(c, target, integral, previous, ys)
  }

  /** A lone D gain and a D window that starts one sample late: raising the sample before it lowers the output. */
  lemma ShortDWindowNotMonotone(w: Windows)
    requires !DWindowLongest(w)
    ensures !MonotoneFor(w)
  {
    hide POut, IOut, DOut, IntegralRange, Integral, ErrorSum, Output;
    var c := Config(true, 0.0, 0.0, 0.0, 0, 0, w.d as real, w.d as real, 1024, 0, w);
    var n := w.d + 1;
    var xs := seq(n, _ => UNIT);
    var ys := xs[0 := 2 * UNIT];
    assert Start(w.d, n) == 1 && First(w, n) == 0;
    assert Below(xs, ys);
    assert BaseError(w, UNIT, 0, xs) == 0 && BaseError(w, UNIT, 0, ys) == 1;
    OnlyD(c, UNIT, xs);
    OnlyD(c, UNIT, ys);
    UnitD(c, 0);
    UnitD(c, -1);
  }

  lemma OnlyD(c: Config, target: int, xs: seq<int>)
    requires c.po == c.pu == c.i == 0.0 && xs != [] && target >= UNIT
    ensures
      var n := |xs|;
      Output(c, target, 0, 0, xs) ==
      DOut(c, LastError(target, xs) - BaseError(c.windows, target, 0, xs), NsTo100us(target), n - Start(c.windows.d, n))
  {
  }

  lemma UnitD(c: Config, slope: int)
    requires c.dOver == c.dUnder == c.windows.d as real && c.windows.d > 0
    ensures DOut(c, slope, 1, c.windows.d) == slope
  {
    var d := c.windows.d as real;
    OverCancels(d, slope as real);
    assert Gained(d, d, slope as real) == d * slope as real;
    assert Over(d * slope as real, 1.0) == d * slope as real;
  }

  lemma OverCancels(d: real, x: real)
    requires d > 0.0
    ensures Over(d * x, d) == x
  {
  }

  /** Whatever the gains, durations and batch lengths, the controller is monotone if and only if the D
      window is the longest. */
  lemma MonotoneLaw(w: Windows)
    ensures MonotoneFor(w) <==> DWindowLongest(w)
  {
    if DWindowLongest(w) {
      forall c: Config, target, integral, previous, xs, ys |
        c.windows == w && GainsNonNegative(c) && target >= UNIT && xs != [] && Below(xs, ys)
        ensures Output(c, target, integral, previous, xs) <= Output(c, target, integral, previous, ys)
      {
        OutputMonotone(c, target, integral, previous, xs, ys);
      }
    } else {
      ShortDWindowNotMonotone(w);
    }
  }

  // ---------- Batches ----------

  lemma IntegralInBounds(c: Config, target: int, start: int, xs: seq<int>, lo: nat, hi: nat)
    requires c.iLow <= c.iHigh && c.i >= 0.0 && lo < hi <= |xs|
    ensures LowDivI(c) <= Integral(IntegralRange(c), target, start, xs, lo, hi) <= HighDivI(c)
  {
    ClampOrdered(c);
  }

  lemma {:induction false} IntegralSplits(r: Range, target: int, start: int, xs: seq<int>, ys: seq<int>, hi: nat)
    requires hi <= |xs + ys|
    ensures Integral(r, target, start, xs + ys, 0, hi) ==
            if hi <= |xs| then Integral(r, target, start, xs, 0, hi)
            else Integral(r, target, Integral(r, target, start, xs, 0, |xs|), ys, 0, hi - |xs|)
  {
    if hi > 0 {
      IntegralSplits(r, target, start, xs, ys, hi - 1);
    }
  }

  /** The integral and the previous error after one batch. */
  function After(c: Config, target: int, state: (int, int), xs: seq<int>): (int, int)
    requires xs != []
  {
    (Integral(IntegralRange(c), target, state.0, xs, Start(c.windows.i, |xs|), |xs|), LastError(target, xs))
  }

  /** Reporting two batches one after the other leaves the state that reporting them as one batch leaves. */
  ghost predicate BatchingIsInvisible(w: Windows) {
    forall c: Config, target, state, xs, ys ::
      c.windows == w && target >= UNIT && xs != [] && ys != [] ==>
        After(c, target, After(c, target, state, xs), ys) == After(c, target, state, xs + ys)
  }

  lemma {:induction false} OnTargetKeepsIntegral(r: Range, target: int, start: int, xs: seq<int>, lo: nat, hi: nat)
    requires r.low <= start <= r.high && lo <= hi <= |xs|
    requires forall i :: lo <= i < hi ==> xs[i] == target
    ensures Integral(r, target, start, xs, lo, hi) == start
    decreases hi
  {
    if lo < hi {
      OnTargetKeepsIntegral(r, target, start, xs, lo, hi - 1);
    }
  }

  lemma WindowedIForgets(w: Windows)
    requires w.i > 0
    ensures !BatchingIsInvisible(w)
  {
    var c := Config(true, 0.0, 0.0, 1.0, 9, -9, 0.0, 0.0, 1024, 0, w);
    var xs, ys := [2 * UNIT], seq(w.i, _ => UNIT);
    var r := IntegralRange(c);
    assert r == Range(-9, 9);
    OnTargetKeepsIntegral(r, UNIT, 0, xs + ys, 1, w.i + 1);
    assert Integral(r, UNIT, 0, xs, 0, 1) == 1;
    OnTargetKeepsIntegral(r, UNIT, 1, ys, 0, w.i);
    assert After(c, UNIT, (0, 0), xs).0 == 1;
    assert After(c, UNIT, After(c, UNIT, (0, 0), xs), ys) != After(c, UNIT, (0, 0), xs + ys);
  }

  /** Batching leaves no trace in the controller state if and only if the I window takes every sample. */
  lemma BatchingLaw(w: Windows)
    ensures BatchingIsInvisible(w) <==> w.i == 0
  {
    if w.i == 0 {
      forall c: Config, target, state, xs, ys | c.windows == w && target >= UNIT && xs != [] && ys != []
        ensures After(c, target, After(c, target, state, xs), ys) == After(c, target, state, xs + ys)
      {
        IntegralSplits(IntegralRange(c), target, state.0, xs, ys, |xs + ys|);
      }
    } else {
      WindowedIForgets(w);
    }
  }
}
