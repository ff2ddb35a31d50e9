/** Throttling severities (thermal/thermal-helper.cpp, thermal/utils/thermal_info.cpp): how a
    temperature and the previous severity give the next one, and which threshold tables the
    configuration parser lets through. */
module Severities {
  import opened Options

  const SEVERITY_COUNT := 7
  const NONE := 0
  const SHUTDOWN := 6

  /** NONE, LIGHT, MODERATE, SEVERE, CRITICAL, EMERGENCY, SHUTDOWN. */
  type Severity = s: int | 0 <= s < SEVERITY_COUNT

  /** One side (hot or cold) of a sensor's table: a threshold and a hysteresis per severity. */
  datatype Bands = Bands(thr: seq<Option<real>>, hyst: seq<real>)

  type Table = b: Bands | |b.thr| == SEVERITY_COUNT && |b.hyst| == SEVERITY_COUNT
    witness Bands(seq(SEVERITY_COUNT, _ => None), seq(SEVERITY_COUNT, _ => 0.0))

  predicate Configured(b: Table, l: int) {
    0 < l < SEVERITY_COUNT && b.thr[l].Some?
  }

  predicate Reached(b: Table, l: Severity, v: real) {
    b.thr[l].Some? && b.thr[l].value <= v
  }

  predicate Held(b: Table, l: Severity, v: real) {
    b.thr[l].Some? && b.thr[l].value - b.hyst[l] < v
  }

  /** The highest level up to `hi` that is reached, NONE if there is none. */
  function TopReached(b: Table, v: real, hi: Severity): (s: Severity)
    ensures s <= hi && (s == NONE || Reached(b, s, v))
    ensures forall l :: s < l <= hi ==> !Reached(b, l, v)
  {
    if hi == NONE then NONE
    else if Reached(b, hi, v) then hi
    else TopReached(b, v, hi - 1)
  }

  function TopHeld(b: Table, v: real, hi: Severity): (s: Severity)
    ensures s <= hi && (s == NONE || Held(b, s, v))
    ensures forall l :: s < l <= hi ==> !Held(b, l, v)
  {
    if hi == NONE then NONE
    else if Held(b, hi, v) then hi
    else TopHeld(b, v, hi - 1)
  }

  function HotSeverity(b: Table, prev: Severity, v: real): Severity {
    var r := TopReached(b, v, SHUTDOWN);
    if r < prev then TopHeld(b, v, SHUTDOWN) else r
  }

  /** For every table: the highest level whose threshold is reached, unless that lies below the previous severity; then the
      highest one whose threshold less hysteresis is exceeded. */
  lemma SeverityStep(b: Table, prev: Severity, v: real)
    ensures
      var s := HotSeverity(b, prev, v);
      if exists l: Severity :: prev <= l && (l == 0 || (b.thr[l].Some? && v >= b.thr[l].value))
      then && (s == 0 || (b.thr[s].Some? && v >= b.thr[s].value))
           && forall l: Severity :: s < l <= 6 ==> b.thr[l].None? || v < b.thr[l].value
      else && (s == 0 || (b.thr[s].Some? && v > b.thr[s].value - b.hyst[s]))
           && forall l: Severity :: s < l <= 6 ==> b.thr[l].None? || v <= b.thr[l].value - b.hyst[l]
  {
    var r := TopReached(b, v, SHUTDOWN);
    if r < prev {
      forall l: Severity | prev <= l
        ensures !(l == 0 || (b.thr[l].Some? && v >= b.thr[l].value))
      {
        assert !Reached(b, l, v);
      }
      var s := TopHeld(b, v, SHUTDOWN);
      forall l: Severity | s < l <= 6
        ensures b.thr[l].None? || v <= b.thr[l].value - b.hyst[l]
      {
        assert !Held(b, l, v);
      }
    } else {
      assert r == 0 || Reached(b, r, v);
      forall l: Severity | r < l <= 6
        ensures b.thr[l].None? || v < b.thr[l].value
      {
        assert !Reached(b, l, v);
      }
    }
  }

  /** The cold side read as a hot side: thresholds change sign. */
  function Mirror(b: Table): (m: Table)
    ensures forall l: Severity :: m.thr[l].Some? == b.thr[l].Some? && m.hyst[l] == b.hyst[l]
    ensures forall l: Severity :: b.thr[l].Some? ==> m.thr[l].value == -b.thr[l].value
  {
    Bands(seq(SEVERITY_COUNT, l requires 0 <= l < SEVERITY_COUNT =>
                if b.thr[l].Some? then Some(-b.thr[l].value) else None), b.hyst)
  }

  function ColdSeverity(b: Table, prev: Severity, v: real): Severity {
    HotSeverity(Mirror(b), prev, -v)
  }

  method GetSeverityFromThresholds(hot: Table, cold: Table, prevHot: Severity, prevCold: Severity, value: real)
    returns (retHot: Severity, retCold: Severity)
    ensures retHot == HotSeverity(hot, prevHot, value)
    ensures retCold == ColdSeverity(cold, prevCold, value)
  {
    retHot, retCold := NONE, NONE;
    var retHotHysteresis: Severity, retColdHysteresis: Severity := NONE, NONE;
    var i := SHUTDOWN;
    ghost var m := Mirror(cold);
    while i > NONE
      invariant NONE <= i <= SHUTDOWN
      invariant TopReached(hot, value, SHUTDOWN) == if retHot == NONE then TopReached(hot, value, i) else retHot
      invariant TopHeld(hot, value, SHUTDOWN) ==
                if retHotHysteresis == NONE then TopHeld(hot, value, i) else retHotHysteresis
      invariant TopReached(m, -value, SHUTDOWN) == if retCold == NONE then TopReached(m, -value, i) else retCold
      invariant TopHeld(m, -value, SHUTDOWN) ==
                if retColdHysteresis == NONE then TopHeld(m, -value, i) else retColdHysteresis
    {
      if hot.thr[i].Some? && hot.thr[i].value <= value && retHot == NONE {
        retHot := i;
      }
      if hot.thr[i].Some? && hot.thr[i].value - hot.hyst[i] < value && retHotHysteresis == NONE {
        retHotHysteresis := i;
      }
      if cold.thr[i].Some? && cold.thr[i].value >= value && retCold == NONE {
        retCold := i;
      }
      if cold.thr[i].Some? && cold.thr[i].value + cold.hyst[i] > value && retColdHysteresis == NONE {
        retColdHysteresis := i;
      }
      i := i - 1;
    }
    if retHot < prevHot {
      retHot := retHotHysteresis;
    }
    if retCold < prevCold {
      retCold := retColdHysteresis;
    }
  }

  // ---------- Tables the parser accepts ----------

  const FLT_MIN: real := 1.0 / 85070591730234615865843651857942052864.0 // 2^-126
  const FLT_MAX: real := 340282346638528859811704183484516925440.0

  predicate Ascending(b: Table) {
    forall j, k :: 0 <= j < k < SEVERITY_COUNT && b.thr[j].Some? && b.thr[k].Some? ==> b.thr[j].value <= b.thr[k].value
  }

  /** The lower threshold lies outside the hysteresis band of the higher one. */
  predicate Clear(b: Table, j: Severity, k: Severity) {
    b.thr[j].Some? && b.thr[k].Some? ==> b.thr[j].value <= b.thr[k].value - b.hyst[k]
  }

  predicate Disjoint(b: Table) {
    forall j, k :: 0 <= j < k < SEVERITY_COUNT ==> Clear(b, j, k)
  }

  predicate WellFormed(b: Table) {
    Ascending(b) && Disjoint(b)
  }

  predicate AllAtLeast(b: Table, low: real) {
    forall j: Severity :: b.thr[j].Some? ==> low <= b.thr[j].value
  }

  /** j and k are configured and nothing between them is. */
  predicate Adjacent(b: Table, j: Severity, k: Severity) {
    && j < k && b.thr[j].Some? && b.thr[k].Some?
    && forall i :: j < i < k ==> b.thr[i].None?
  }

  lemma BelowIsAdjacent(b: Table, j: Severity, k: Severity) returns (p: Severity)
    requires j < k && b.thr[j].Some? && b.thr[k].Some?
    ensures j <= p && Adjacent(b, p, k)
  {
    p := k - 1;
    while b.thr[p].None?
      invariant j <= p < k
      invariant forall i :: p < i < k ==> b.thr[i].None?
      decreases p
    {
      p := p - 1;
    }
  }

  /** Only neighbouring thresholds need comparing once the thresholds ascend. */
  lemma AdjacentSuffices(b: Table)
    requires Ascending(b)
    requires forall j: Severity, k: Severity :: Adjacent(b, j, k) ==> Clear(b, j, k)
    ensures Disjoint(b)
  {
    forall j: Severity, k: Severity | j < k && b.thr[j].Some? && b.thr[k].Some?
      ensures Clear(b, j, k)
    {
      var p := BelowIsAdjacent(b, j, k);
      assert Clear(b, p, k);
    }
  }

  /** The checks on HotThreshold and HotHysteresis. The source compares each threshold with the next
      configured one only; that is enough for every pair. */
  method CheckHotTable(b: Table) returns (ok: bool)
    ensures ok <==> WellFormed(b) && AllAtLeast(b, FLT_MIN)
  {
    var min := FLT_MIN;
    for j := 0 to SEVERITY_COUNT
      invariant FLT_MIN <= min
      invariant forall i :: 0 <= i < j && b.thr[i].Some? ==> FLT_MIN <= b.thr[i].value <= min
      invariant forall i, k :: 0 <= i < k < j && b.thr[i].Some? && b.thr[k].Some? ==> b.thr[i].value <= b.thr[k].value
      invariant min == FLT_MIN || exists i :: 0 <= i < j && b.thr[i] == Some(min)
    {
      if b.thr[j].Some? {
        if b.thr[j].value < min {
          return false;
        }
        min := b.thr[j].value;
      }
    }
    assert Ascending(b);
    for j := 0 to SEVERITY_COUNT - 1
      invariant forall i: Severity, k: Severity :: i < j && Adjacent(b, i, k) ==> Clear(b, i, k)
    {
      if b.thr[j].None? {
        continue;
      }
      var k := j + 1;
      while k < SEVERITY_COUNT
        invariant j < k <= SEVERITY_COUNT
        invariant forall i :: j < i < k ==> b.thr[i].None?
      {
        if b.thr[k].None? {
          k := k + 1;
          continue;
        } else if b.thr[j].value > b.thr[k].value - b.hyst[k] {
          assert !Clear(b, j, k);
          return false;
        } else {
          break;
        }
      }
    }
    AdjacentSuffices(b);
    return true;
  }

  /** The checks on ColdThreshold and ColdHysteresis accept the mirror images of hot tables. */
  method CheckColdTable(b: Table) returns (ok: bool)
    ensures ok <==> WellFormed(Mirror(b)) && AllAtLeast(Mirror(b), -FLT_MAX)
  {
    ghost var m := Mirror(b);
    var max := FLT_MAX;
    for j := 0 to SEVERITY_COUNT
      invariant max <= FLT_MAX
      invariant forall i :: 0 <= i < j && m.thr[i].Some? ==> -FLT_MAX <= m.thr[i].value <= -max
      invariant forall i, k :: 0 <= i < k < j && m.thr[i].Some? && m.thr[k].Some? ==> m.thr[i].value <= m.thr[k].value
      invariant max == FLT_MAX || exists i :: 0 <= i < j && m.thr[i] == Some(-max)
    {
      if b.thr[j].Some? {
        assert m.thr[j] == Some(-b.thr[j].value);
        if b.thr[j].value > max {
          return false;
        }
        max := b.thr[j].value;
      }
    }
    assert Ascending(m);
    for j := 0 to SEVERITY_COUNT - 1
      invariant forall i: Severity, k: Severity :: i < j && Adjacent(m, i, k) ==> Clear(m, i, k)
    {
      if b.thr[j].None? {
        continue;
      }
      var k := j + 1;
      while k < SEVERITY_COUNT
        invariant j < k <= SEVERITY_COUNT
        invariant forall i :: j < i < k ==> m.thr[i].None?
      {
        if b.thr[k].None? {
          k := k + 1;
          continue;
        } else if b.thr[j].value < b.thr[k].value + b.hyst[k] {
          assert !Clear(m, j, k);
          return false;
        } else {
          break;
        }
      }
    }
    AdjacentSuffices(m);
    return true;
  }

  // ---------- Runs: the severity against independent latches ----------

  /** The severity after a run of readings, each result fed back as the previous severity. */
  function HotAfter(b: Table, vs: seq<real>): Severity {
    if vs == [] then NONE
    else HotSeverity(b, HotAfter(b, vs[..|vs| - 1]), vs[|vs| - 1])
  }

  function ColdAfter(b: Table, vs: seq<real>): Severity {
    if vs == [] then NONE
    else ColdSeverity(b, ColdAfter(b, vs[..|vs| - 1]), vs[|vs| - 1])
  }

  /** A two-threshold latch for one level alone: on at or above the threshold, off at or below
      threshold minus hysteresis, otherwise held. */
  function Latch(b: Table, l: Severity, on: bool, v: real): bool
    requires Configured(b, l)
  {
    if v >= b.thr[l].value then true
    else if v <= b.thr[l].value - b.hyst[l] then false
    else on
  }

  function LatchAfter(b: Table, l: Severity, vs: seq<real>): bool
    requires Configured(b, l)
  {
    if vs == [] then false
    else Latch(b, l, LatchAfter(b, l, vs[..|vs| - 1]), vs[|vs| - 1])
  }

  /** The level has a real hysteresis, or no higher threshold exists to fall from. */
  predicate Sticky(b: Table, l: Severity)
    requires Configured(b, l)
  {
    b.hyst[l] > 0.0 || forall m :: l < m < SEVERITY_COUNT && b.thr[m].Some? ==> b.thr[m].value <= b.thr[l].value
  }

  ghost predicate TracksLatch(b: Table, l: Severity)
    requires Configured(b, l)
  {
    forall vs :: HotAfter(b, vs) >= l <==> LatchAfter(b, l, vs)
  }

  lemma SeverityIsConfigured(b: Table, vs: seq<real>)
    ensures HotAfter(b, vs) == NONE || Configured(b, HotAfter(b, vs))
  {
  }

  lemma LatchStep(b: Table, l: Severity, prev: Severity, v: real)
    requires WellFormed(b) && Configured(b, l) && Sticky(b, l)
    requires prev == NONE || Configured(b, prev)
    ensures HotSeverity(b, prev, v) >= l <==> Latch(b, l, prev >= l, v)
  {
    var r, h := TopReached(b, v, SHUTDOWN), TopHeld(b, v, SHUTDOWN);
    if r < prev {
      if l < h {
        assert Clear(b, l, h);
      } else if h < l {
        assert !Held(b, l, v) && !Reached(b, prev, v);
      } else {
        assert h > prev ==> Clear(b, prev, h);
        assert !Reached(b, prev, v);
      }
    } else if l <= r {
      assert Reached(b, r, v);
    } else {
      assert !Reached(b, l, v);
    }
  }

  lemma {:induction false} StickyTracksLatch(b: Table, l: Severity, vs: seq<real>)
    requires WellFormed(b) && Configured(b, l) && Sticky(b, l)
    ensures HotAfter(b, vs) >= l <==> LatchAfter(b, l, vs)
  {
    if vs != [] {
      var init := vs[..|vs| - 1];
      StickyTracksLatch(b, l, init);
      SeverityIsConfigured(b, init);
      LatchStep(b, l, HotAfter(b, init), vs[|vs| - 1]);
    }
  }

  /** Without hysteresis, falling from a higher level exactly onto the threshold drops the level that
      its latch keeps. */
  lemma SlipsOffThreshold(b: Table, l: Severity, m: Severity)
    requires WellFormed(b) && Configured(b, l) && Configured(b, m)
    requires l < m && b.thr[l].value < b.thr[m].value && b.hyst[l] <= 0.0
    ensures !TracksLatch(b, l)
  {
    var up, down := b.thr[m].value, b.thr[l].value;
    var vs := [up, down];
    assert vs[..1] == [up] && [up][..0] == [];
    var s1 := HotSeverity(b, NONE, up);
    assert HotAfter(b, [up]) == s1 && s1 >= m by {
      assert Reached(b, m, up);
      assert HotAfter(b, [up]) == HotSeverity(b, HotAfter(b, []), up);
    }
    var r := TopReached(b, down, SHUTDOWN);
    assert r < s1;
    var s2 := TopHeld(b, down, SHUTDOWN);
    assert s2 < l by {
      assert s2 > l ==> Clear(b, l, s2);
    }
    assert HotAfter(b, vs) == s2;
    assert LatchAfter(b, l, vs);
  }

  /** Over every run, "severity at or above l" is exactly the latch of level l, if and only if l is sticky. */
  lemma LatchLaw(b: Table, l: Severity)
    requires WellFormed(b) && Configured(b, l)
    ensures TracksLatch(b, l) <==> Sticky(b, l)
  {
    if Sticky(b, l) {
      forall vs ensures HotAfter(b, vs) >= l <==> LatchAfter(b, l, vs) {
        StickyTracksLatch(b, l, vs);
      }
    } else {
      var m :| l < m < SEVERITY_COUNT && b.thr[m].Some? && b.thr[m].value > b.thr[l].value;
      SlipsOffThreshold(b, l, m);
    }
  }

  function Negated(vs: seq<real>): (ns: seq<real>)
    ensures |ns| == |vs| && forall i :: 0 <= i < |vs| ==> ns[i] == -vs[i]
  {
    seq(|vs|, i requires 0 <= i < |vs| => -vs[i])
  }

  /** A cold run is the hot run of the mirrored table over the negated temperatures, so every law
      about hot runs is a law about cold runs. */
  lemma {:induction false} ColdMirrorsHot(b: Table, vs: seq<real>)
    ensures ColdAfter(b, vs) == HotAfter(Mirror(b), Negated(vs))
  {
    if vs != [] {
      var n := |vs| - 1;
      ColdMirrorsHot(b, vs[..n]);
      assert Negated(vs)[..n] == Negated(vs[..n]);
    }
  }

  // ---------- No chatter ----------

  /** How often the severity fell from at or above l to below l. */
  function Falls(b: Table, l: Severity, vs: seq<real>): nat {
    if vs == [] then 0
    else
      var init := vs[..|vs| - 1];
      Falls(b, l, init) + if HotAfter(b, init) >= l && HotAfter(b, vs) < l then 1 else 0
  }

  /** The total downward movement of the temperature. */
  function Descent(vs: seq<real>): real {
    if |vs| <= 1 then 0.0
    else
      var n := |vs| - 1;
      Descent(vs[..n]) + if vs[n] < vs[n - 1] then vs[n - 1] - vs[n] else 0.0
  }

  /** How far an engaged level has already sunk below its threshold. */
  function Sunk(b: Table, l: Severity, vs: seq<real>): real
    requires Configured(b, l)
  {
    if vs != [] && HotAfter(b, vs) >= l && vs[|vs| - 1] < b.thr[l].value
    then b.thr[l].value - vs[|vs| - 1]
    else 0.0
  }

  lemma DescentCoversSinking(b: Table, l: Severity, vs: seq<real>)
    requires WellFormed(b) && Configured(b, l) && b.hyst[l] > 0.0 && vs != []
    ensures
      var init := vs[..|vs| - 1];
      var fell := HotAfter(b, init) >= l && HotAfter(b, vs) < l;
      (if fell then b.hyst[l] else 0.0) + Sunk(b, l, vs) <= Sunk(b, l, init) + Descent(vs) - Descent(init)
  {
    var n := |vs| - 1;
    var init := vs[..n];
    StickyTracksLatch(b, l, vs);
    StickyTracksLatch(b, l, init);
    if n > 0 {
      assert init[n - 1] == vs[n - 1];
    }
  }

  /** The hysteresis added up once per fall. */
  function FallCost(b: Table, l: Severity, vs: seq<real>): real {
    if vs == [] then 0.0
    else
      var init := vs[..|vs| - 1];
      FallCost(b, l, init) + if HotAfter(b, init) >= l && HotAfter(b, vs) < l then b.hyst[l] else 0.0
  }

  /** n times h, added up (see TimesIsProduct). */
  function Times(n: nat, h: real): real {
    if n == 0 then 0.0 else Times(n - 1, h) + h
  }

  lemma {:induction false} TimesIsProduct(n: nat, h: real)
    ensures Times(n, h) == n as real * h
  {
    if n > 0 {
      TimesIsProduct(n - 1, h);
      Distribute((n - 1) as real, h);
    }
  }

  lemma Distribute(m: real, h: real)
    ensures (m + 1.0) * h == m * h + h
  {
  }

  lemma {:induction false} FallCostIsTimes(b: Table, l: Severity, vs: seq<real>)
    ensures FallCost(b, l, vs) == Times(Falls(b, l, vs), b.hyst[l])
  {
    if vs != [] {
      FallCostIsTimes(b, l, vs[..|vs| - 1]);
    }
  }

  lemma {:induction false} TimesNonPositive(n: nat, h: real)
    requires h <= 0.0
    ensures Times(n, h) <= 0.0
  {
    if n > 0 {
      TimesNonPositive(n - 1, h);
    }
  }

  lemma {:induction false} FallsArePaidFor(b: Table, l: Severity, vs: seq<real>)
    requires WellFormed(b) && Configured(b, l) && b.hyst[l] > 0.0
    ensures FallCost(b, l, vs) + Sunk(b, l, vs) <= Descent(vs)
  {
    if vs != [] {
      FallsArePaidFor(b, l, vs[..|vs| - 1]);
      DescentCoversSinking(b, l, vs);
    }
  }

  lemma {:induction false} DescentNonNegative(vs: seq<real>)
    ensures Descent(vs) >= 0.0
  {
    if |vs| > 1 {
      DescentNonNegative(vs[..|vs| - 1]);
    }
  }

  lemma TimesFallsAreCovered(b: Table, l: Severity, vs: seq<real>)
    requires WellFormed(b) && Configured(b, l)
    ensures Times(Falls(b, l, vs), b.hyst[l]) <= Descent(vs)
  {
    if b.hyst[l] > 0.0 {
      FallsArePaidFor(b, l, vs);
      FallCostIsTimes(b, l, vs);
    } else {
      DescentNonNegative(vs);
      TimesNonPositive(Falls(b, l, vs), b.hyst[l]);
    }
  }

  /** Every fall through a level costs at least that level's hysteresis of downward movement. */
  lemma NoChatter(b: Table, l: Severity, vs: seq<real>)
    requires WellFormed(b) && Configured(b, l)
    ensures Falls(b, l, vs) as real * b.hyst[l] <= Descent(vs)
  {
    hide Falls, Times, Descent, WellFormed, Configured;
    TimesFallsAreCovered(b, l, vs);
    TimesIsProduct(Falls(b, l, vs), b.hyst[l]);
  }
}
