/** Aggregating pressure samples between uploads (aggregatePressureStall and fillPressureStallAtom in
    pixelstats/MmMetricsReporter.cpp). */
module PsiAggregate {
  import opened Integers
  import opened PsiParser

  const NUM_TOTALS := 5
  const NUM_AVGS := 15
  const NUM_UPLOAD_AVGS := 45
  const NUM_AGGREGATED := 3
  const AVG_OFFSET := 2

  /** The place, among all metrics, of the a-th one that is not a total. */
  function AvgMetric(a: nat): nat {
    NUM_NAMES * (a / TOTAL) + a % TOTAL
  }

  /** The averages of the five lines, in order, leaving out their totals. */
  lemma AveragesInOrder(line: nat, n: nat)
    requires line < 5 && n < 3
    ensures AvgMetric(3 * line + n) == 4 * line + n < 20
  {
  }

  function Least(samples: seq<seq<int>>, m: nat): int
    requires samples != [] && forall i :: 0 <= i < |samples| ==> m < |samples[i]|
  {
    var n := |samples| - 1;
    if n == 0 then samples[0][m]
    else var before := Least(samples[..n], m); if samples[n][m] < before then samples[n][m] else before
  }

  function Greatest(samples: seq<seq<int>>, m: nat): int
    requires samples != [] && forall i :: 0 <= i < |samples| ==> m < |samples[i]|
  {
    var n := |samples| - 1;
    if n == 0 then samples[0][m]
    else var before := Greatest(samples[..n], m); if samples[n][m] > before then samples[n][m] else before
  }

  function Sum(samples: seq<seq<int>>, m: nat): int
    requires forall i :: 0 <= i < |samples| ==> m < |samples[i]|
  {
    if samples == [] then 0 else var n := |samples| - 1; Sum(samples[..n], m) + samples[n][m]
  }

  predicate AreSamples(samples: seq<seq<int>>) {
    forall i :: 0 <= i < |samples| ==> |samples[i]| == NUM_METRICS && -1 !in samples[i]
  }

  /** The three slots of the a-th average hold its minimum, maximum and sum. */
  ghost predicate Aggregates(slots: seq<int>, samples: seq<seq<int>>, a: nat)
    requires |slots| == NUM_UPLOAD_AVGS && AreSamples(samples) && samples != [] && a < NUM_AVGS
  {
    && slots[3 * a] == Least(samples, AvgMetric(a))
    && slots[3 * a + 1] == Greatest(samples, AvgMetric(a))
    && slots[3 * a + 2] == Sum(samples, AvgMetric(a))
  }

  lemma {:induction false} LeastIs(samples: seq<seq<int>>, m: nat)
    requires samples != [] && forall i :: 0 <= i < |samples| ==> m < |samples[i]|
    ensures forall i :: 0 <= i < |samples| ==> Least(samples, m) <= samples[i][m]
    ensures exists i :: 0 <= i < |samples| && samples[i][m] == Least(samples, m)
  {
    var n := |samples| - 1;
    if n > 0 {
      LeastIs(samples[..n], m);
      var i :| 0 <= i < n && samples[..n][i][m] == Least(samples[..n], m);
      assert samples[i][m] == Least(samples[..n], m);
      assert samples[..n] + [samples[n]] == samples;
    } else {
      assert samples[0][m] == Least(samples, m);
    }
  }

  lemma {:induction false} GreatestIs(samples: seq<seq<int>>, m: nat)
    requires samples != [] && forall i :: 0 <= i < |samples| ==> m < |samples[i]|
    ensures forall i :: 0 <= i < |samples| ==> samples[i][m] <= Greatest(samples, m)
    ensures exists i :: 0 <= i < |samples| && samples[i][m] == Greatest(samples, m)
  {
    var n := |samples| - 1;
    if n > 0 {
      GreatestIs(samples[..n], m);
      var i :| 0 <= i < n && samples[..n][i][m] == Greatest(samples[..n], m);
      assert samples[i][m] == Greatest(samples[..n], m);
      assert samples[..n] + [samples[n]] == samples;
    } else {
      assert samples[0][m] == Greatest(samples, m);
    }
  }

  lemma {:induction false} SumBetween(samples: seq<seq<int>>, m: nat, lo: int, hi: int)
    requires forall i :: 0 <= i < |samples| ==> m < |samples[i]| && lo <= samples[i][m] <= hi
    ensures lo * |samples| <= Sum(samples, m) <= hi * |samples|
  {
    if samples != [] {
      var n := |samples| - 1;
      SumBetween(samples[..n], m, lo, hi);
      assert lo * |samples| == lo * n + lo && hi * |samples| == hi * n + hi;
    }
  }

  lemma Cancel(a: int, b: int, c: int)
    requires c > 0 && a * c < b * c
    ensures a < b
  {
  }

  lemma QuotientBetween(sum: int, count: int, lo: int, hi: int)
    requires count > 0 && lo * count <= sum <= hi * count
    ensures lo <= TruncDiv(sum, count) <= hi
  {
    var q := TruncDiv(sum, count);
    assert (q - 1) * count < sum < (q + 1) * count && (sum >= 0 ==> q * count <= sum) && (sum < 0 ==> sum <= q * count);
    Cancel(lo, q + 1, count);
    Cancel(q - 1, hi, count);
  }

  /** The uploaded average, truncation included, lies between the uploaded minimum and maximum. */
  lemma AverageBetween(samples: seq<seq<int>>, m: nat)
    requires samples != [] && forall i :: 0 <= i < |samples| ==> m < |samples[i]|
    ensures Least(samples, m) <= TruncDiv(Sum(samples, m), |samples|) <= Greatest(samples, m)
  {
    LeastIs(samples, m);
    GreatestIs(samples, m);
    SumBetween(samples, m, Least(samples, m), Greatest(samples, m));
    QuotientBetween(Sum(samples, m), |samples|, Least(samples, m), Greatest(samples, m));
  }

  lemma OneSampleMore(samples: seq<seq<int>>, x: seq<int>, m: nat)
    requires AreSamples(samples) && AreSamples([x]) && m < |x| == NUM_METRICS
    ensures samples == [] ==> Least([x], m) == Greatest([x], m) == Sum([x], m) == x[m]
    ensures samples != [] ==>
              && AreSamples(samples + [x])
              && Least(samples + [x], m) == (if x[m] < Least(samples, m) then x[m] else Least(samples, m))
              && Greatest(samples + [x], m) == (if x[m] > Greatest(samples, m) then x[m] else Greatest(samples, m))
              && Sum(samples + [x], m) == Sum(samples, m) + x[m]
  {
    assert (samples + [x])[..|samples|] == samples && (samples + [x])[|samples|] == x;
  }

  /** The first done averages have taken in x, the others are as they were. */
  ghost predicate PartlyTaken(slots0: seq<int>, slots: seq<int>, x: seq<int>, first: bool, done: nat)
    requires |slots0| == |slots| == NUM_UPLOAD_AVGS && |x| == NUM_METRICS
  {
    forall a: nat {:trigger AvgMetric(a)} :: a < NUM_AVGS ==>
      var v, i := x[AvgMetric(a)], 3 * a;
      if a >= done then slots[i] == slots0[i] && slots[i + 1] == slots0[i + 1] && slots[i + 2] == slots0[i + 2]
      else if first then slots[i] == slots[i + 1] == slots[i + 2] == v
      else && slots[i] == (if v < slots0[i] then v else slots0[i])
           && slots[i + 1] == (if v > slots0[i + 1] then v else slots0[i + 1])
           && slots[i + 2] == slots0[i + 2] + v
  }

  function Taken(slots: seq<int>, v: int, first: bool, a: nat): (r: seq<int>)
    requires |slots| == NUM_UPLOAD_AVGS && a < NUM_AVGS
    ensures |r| == NUM_UPLOAD_AVGS
  {
    var i := 3 * a;
    if first then slots[i := v][i + 1 := v][i + 2 := v]
    else slots[i := if v < slots[i] then v else slots[i]]
              [i + 1 := if v > slots[i + 1] then v else slots[i + 1]]
              [i + 2 := slots[i + 2] + v]
  }

  /** How many of the first i metrics are not totals. */
  function AvgsBefore(i: nat): nat {
    i - i / NUM_NAMES
  }

  lemma AvgsCount(i: nat)
    requires i < NUM_METRICS
    ensures AvgsBefore(0) == 0 && AvgsBefore(NUM_METRICS) == NUM_AVGS && AvgsBefore(i) <= NUM_AVGS
    ensures i % NUM_NAMES == TOTAL ==> AvgsBefore(i + 1) == AvgsBefore(i)
    ensures i % NUM_NAMES != TOTAL ==>
              AvgsBefore(i + 1) == AvgsBefore(i) + 1 && AvgsBefore(i) < NUM_AVGS && AvgMetric(AvgsBefore(i)) == i
  {
  }

  lemma NothingTaken(slots: seq<int>, x: seq<int>, first: bool)
    requires |slots| == NUM_UPLOAD_AVGS && |x| == NUM_METRICS
    ensures PartlyTaken(slots, slots, x, first, 0)
  {
  }

  lemma TakeStep(slots0: seq<int>, slots: seq<int>, x: seq<int>, first: bool, a: nat)
    requires |slots0| == |slots| == NUM_UPLOAD_AVGS && |x| == NUM_METRICS && a < NUM_AVGS
    requires PartlyTaken(slots0, slots, x, first, a)
    ensures PartlyTaken(slots0, Taken(slots, x[AvgMetric(a)], first, a), x, first, a + 1)
  {
  }

  lemma TakenIsAggregated(slots0: seq<int>, slots: seq<int>, samples: seq<seq<int>>, x: seq<int>)
    requires |slots0| == |slots| == NUM_UPLOAD_AVGS && AreSamples(samples) && AreSamples([x]) && |x| == NUM_METRICS
    requires samples != [] ==> forall a: nat :: a < NUM_AVGS ==> Aggregates(slots0, samples, a)
    requires PartlyTaken(slots0, slots, x, samples == [], NUM_AVGS)
    ensures AreSamples(samples + [x]) && forall a: nat :: a < NUM_AVGS ==> Aggregates(slots, samples + [x], a)
  {
    assert samples == [] ==> samples + [x] == [x];
    forall a: nat | a < NUM_AVGS
      ensures Aggregates(slots, samples + [x], a)
    {
      OneSampleMore(samples, x, AvgMetric(a));
      assert samples != [] ==> Aggregates(slots0, samples, a);
    }
  }

  class MmMetricsReporter {
    const supported: bool
    const total: array<int>
    const prevTotal: array<int>
    const aggregated: array<int>
    var count: int
    ghost var samples: seq<seq<int>>

    /** The slots sum up the samples accepted since the last upload. */
    ghost predicate Valid()
      reads this, aggregated
    {
      && total.Length == prevTotal.Length == NUM_TOTALS && aggregated.Length == NUM_UPLOAD_AVGS
      && total != prevTotal && total != aggregated && prevTotal != aggregated
      && AreSamples(samples) && count == |samples|
      && (samples != [] ==> forall a: nat :: a < NUM_AVGS ==> Aggregates(aggregated[..], samples, a))
    }

    /** The source leaves the slots uninitialised. */
    constructor (supported: bool)
      ensures Valid() && this.supported == supported && samples == []
      ensures fresh(total) && fresh(prevTotal) && fresh(aggregated)
    {
      this.supported := supported;
      total := new int[NUM_TOTALS];
      prevTotal := new int[NUM_TOTALS];
      aggregated := new int[NUM_UPLOAD_AVGS];
      count, samples := 0, [];
    }

    method TakeAverages(psi: seq<int>)
      requires Valid() && AreSamples([psi]) && |psi| == NUM_METRICS
      modifies this`count, this`samples, aggregated
      ensures Valid() && samples == old(samples) + [psi]
    {
      hide Aggregates, AreSamples, PartlyTaken, AvgMetric, AvgsBefore;
      ghost var slots0 := aggregated[..];
      NothingTaken(slots0, psi, count == 0);
      AvgsCount(0);
      var aggrIdx := 0;
      for i := 0 to NUM_METRICS
        invariant aggrIdx == 3 * AvgsBefore(i) <= NUM_UPLOAD_AVGS
        invariant PartlyTaken(slots0, aggregated[..], psi, count == 0, AvgsBefore(i))
        modifies aggregated
      {
        AvgsCount(i);
        if i % NUM_NAMES == TOTAL {
          continue;
        }
        ghost var slots, a := aggregated[..], AvgsBefore(i);
        TakeStep(slots0, slots, psi, count == 0, a);
        var value := psi[i];
        if count == 0 {
          aggregated[aggrIdx] := value;
          aggregated[aggrIdx + 1] := value;
          aggregated[aggrIdx + 2] := value;
        } else {
          aggregated[aggrIdx] := if value < aggregated[aggrIdx] then value else aggregated[aggrIdx];
          aggregated[aggrIdx + 1] := if value > aggregated[aggrIdx + 1] then value else aggregated[aggrIdx + 1];
          aggregated[aggrIdx + 2] := aggregated[aggrIdx + 2] + value;
        }
        assert aggregated[..] == Taken(slots, value, count == 0, a);
        aggrIdx := aggrIdx + 3;
      }
      TakenIsAggregated(slots0, aggregated[..], samples, psi);
      count := count + 1;
      samples := samples + [psi];
    }

    method InvalidateTotals()
      requires Valid()
      modifies total
      ensures forall i :: 0 <= i < NUM_TOTALS ==> total[i] == -1
    {
      for i := 0 to NUM_TOTALS
        invariant forall j :: 0 <= j < i ==> total[j] == -1
      {
        total[i] := -1;
      }
    }

    /** A sample with a bad value leaves the aggregates alone and only invalidates the totals. */
    method AggregatePressureStall(p: Parsers, files: seq<File>) returns (ghost sample: seq<int>)
      requires Valid() && |files| == NUM_FILES
      modifies this`count, this`samples, total, aggregated
      ensures Valid()
      ensures !supported ==>
                samples == old(samples) && total[..] == old(total[..]) && aggregated[..] == old(aggregated[..])
      ensures supported ==> IsSample(p, files, sample)
      ensures supported && -1 in sample ==>
                && samples == old(samples) && aggregated[..] == old(aggregated[..])
                && forall i :: 0 <= i < NUM_TOTALS ==> total[i] == -1
      ensures supported && -1 !in sample ==>
                && samples == old(samples) + [sample]
                && forall i :: 0 <= i < NUM_TOTALS ==> total[i] == sample[NUM_NAMES * i + TOTAL]
    {
      hide IsSample, Aggregates;
      sample := [];
      if !supported {
        return;
      }
      var psi := new int[NUM_METRICS];
      ReadPressureStall(p, files, psi);
      sample := psi[..];
      for i := 0 to NUM_METRICS
        invariant -1 !in psi[..i]
        modifies total
      {
        if psi[i] == -1 {
          assert psi[..][i] == -1;
          InvalidateTotals();
          return;
        }
      }
      assert psi[..NUM_METRICS] == psi[..];
      for i := 0 to NUM_TOTALS
        invariant forall j :: 0 <= j < i ==> total[j] == psi[NUM_NAMES * j + TOTAL]
        modifies total
      {
        total[i] := psi[NUM_NAMES * i + TOTAL];
      }
      assert psi[..] == sample;
      TakeAverages(psi[..]);
    }

    /** The totals are uploaded as differences, the averages as minimum, maximum and mean, from index `start` on;
        a short vector is extended with default values. Then counting restarts. */
    method FillPressureStallAtom(values: seq<int>, start: nat) returns (out: seq<int>)
      requires Valid()
      modifies this`count, this`samples, total, prevTotal
      ensures Valid()
      ensures !supported ==> out == values && samples == old(samples)
      ensures !supported ==> total[..] == old(total[..]) && prevTotal[..] == old(prevTotal[..])
      ensures supported ==> |out| == |Resized(values, start + NUM_TOTALS + NUM_UPLOAD_AVGS)| && samples == []
      ensures supported ==> Uploaded(old(samples), old(total[..]), old(prevTotal[..]), out, start)
      ensures supported ==> forall i :: 0 <= i < NUM_TOTALS ==>
                              prevTotal[i] == total[i] == Current(old(samples), old(total[i]))
      ensures supported ==> forall i :: 0 <= i < 5 ==>
                              && total[i] == (if old(samples) == [] then -1 else old(total[i]))
                              && out[start + i] == if total[i] != -1 && old(prevTotal[i]) != -1
                                                   then total[i] - old(prevTotal[i]) else -1
      ensures supported ==> forall i :: 0 <= i < |out| && !(start <= i < start + NUM_TOTALS + NUM_UPLOAD_AVGS) ==>
                              out[i] == Resized(values, start + NUM_TOTALS + NUM_UPLOAD_AVGS)[i]
    {
      hide Aggregates;
      out := values;
      if !supported {
        return;
      }
      out := Resized(values, start + NUM_TOTALS + NUM_UPLOAD_AVGS);
      ghost var resized := out;
      for i := 0 to NUM_TOTALS
        invariant |out| == |resized|
        invariant forall j :: 0 <= j < i ==> out[start + j] == Difference(Current(samples, old(total[j])), old(prevTotal[j]))
        invariant forall j :: 0 <= j < i ==> prevTotal[j] == total[j] == Current(samples, old(total[j]))
        invariant forall j :: i <= j < NUM_TOTALS ==> total[j] == old(total[j]) && prevTotal[j] == old(prevTotal[j])
        invariant forall j :: 0 <= j < |out| && !(start <= j < start + i) ==> out[j] == resized[j]
        modifies total, prevTotal
      {
        if count == 0 {
          total[i] := -1;
        }
        out := out[start + i := if total[i] != -1 && prevTotal[i] != -1 then total[i] - prevTotal[i] else -1];
        prevTotal[i] := total[i];
      }
      var from := start + NUM_TOTALS;
      ghost var slots, totals := aggregated[..], out;
      for i := 0 to NUM_UPLOAD_AVGS
        invariant |out| == |resized|
        invariant forall j :: 0 <= j < i ==> out[from + j] == Upload(slots, count, j)
        invariant forall j :: 0 <= j < |out| && !(from <= j < from + i) ==> out[j] == totals[j]
        modifies {}
      {
        if count != 0 {
          if i % NUM_AGGREGATED == AVG_OFFSET {
            out := out[from + i := ToInt32(TruncDiv(aggregated[i], count))];
          } else {
            out := out[from + i := ToInt32(aggregated[i])];
          }
        } else {
          out := out[from + i := -1];
        }
      }
      assert count == |samples|;
      UploadIs(slots, samples, out, from);
      count, samples := 0, [];
    }
  }

  /** std::vector::resize upwards; the values added are defaults. */
  function Resized(values: seq<int>, size: nat): (r: seq<int>)
    ensures |r| >= size && |r| >= |values| && values <= r
  {
    if |values| < size then values + seq(size - |values|, _ => 0) else values
  }

  /** The total an upload compares with the previous one: none without an accepted sample. */
  function Current(samples: seq<seq<int>>, total: int): int {
    if samples == [] then -1 else total
  }

  function Difference(now: int, before: int): int {
    if now != -1 && before != -1 then now - before else -1
  }

  function Upload(slots: seq<int>, count: int, j: nat): int
    requires count >= 0 && j < |slots|
  {
    if count == 0 then -1
    else ToInt32(if j % NUM_AGGREGATED == AVG_OFFSET then TruncDiv(slots[j], count) else slots[j])
  }

  /** What an upload holds of the a-th average, in 32 bits; minimum, mean and maximum are themselves and in order if
      the minimum and the maximum fit. */
  ghost predicate UploadedAvg(samples: seq<seq<int>>, values: seq<int>, from: nat, a: nat)
    requires AreSamples(samples) && from + NUM_UPLOAD_AVGS <= |values| && a < NUM_AVGS
  {
    var i, m := from + 3 * a, AvgMetric(a);
    if samples == [] then values[i] == values[i + 1] == values[i + 2] == -1
    else
      var least, greatest, mean := Least(samples, m), Greatest(samples, m), TruncDiv(Sum(samples, m), |samples|);
      && values[i] == ToInt32(least) && values[i + 1] == ToInt32(greatest) && values[i + 2] == ToInt32(mean)
      && (FitsInt32(least) && FitsInt32(greatest) ==>
            values[i] == least <= values[i + 2] == mean <= values[i + 1] == greatest)
  }

  ghost predicate Uploaded(samples: seq<seq<int>>, total: seq<int>, prev: seq<int>, values: seq<int>, start: nat)
    requires AreSamples(samples) && |total| == |prev| == NUM_TOTALS && start + NUM_TOTALS + NUM_UPLOAD_AVGS <= |values|
  {
    && (forall i :: 0 <= i < NUM_TOTALS ==> values[start + i] == Difference(Current(samples, total[i]), prev[i]))
    && var from := start + NUM_TOTALS; forall a: nat :: a < NUM_AVGS ==> UploadedAvg(samples, values, from, a)
  }

  lemma UploadIs(slots: seq<int>, samples: seq<seq<int>>, values: seq<int>, from: nat)
    requires AreSamples(samples) && from + NUM_UPLOAD_AVGS <= |values| && |slots| == NUM_UPLOAD_AVGS
    requires samples != [] ==> forall a: nat :: a < NUM_AVGS ==> Aggregates(slots, samples, a)
    requires forall j :: 0 <= j < NUM_UPLOAD_AVGS ==> values[from + j] == Upload(slots, |samples|, j)
    ensures forall a: nat :: a < NUM_AVGS ==> UploadedAvg(samples, values, from, a)
  {
    hide Least, Greatest, Sum, TruncDiv, ToInt32;
    forall a: nat | a < NUM_AVGS
      ensures UploadedAvg(samples, values, from, a)
    {
      assert values[from + 3 * a] == Upload(slots, |samples|, 3 * a);
      assert values[from + (3 * a + 1)] == Upload(slots, |samples|, 3 * a + 1);
      assert values[from + (3 * a + 2)] == Upload(slots, |samples|, 3 * a + 2);
      if samples != [] {
        assert Aggregates(slots, samples, a);
        AverageBetween(samples, AvgMetric(a));
      }
    }
  }
}
