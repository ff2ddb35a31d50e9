/** What the formulas of a virtual sensor compute (thermal/thermal-helper.cpp:1005-1072), stated on the readings and
    coefficients themselves. */
module Formulas {
  import opened Options
  import opened SensorGraph

  // ---------- WEIGHTED_AVG ----------

  /** The sum of the readings, each times its coefficient. */
  function Dot(rs: seq<real>, cs: seq<real>): real
    requires |rs| == |cs|
  {
    if rs == [] then 0.0 else rs[0] * cs[0] + Dot(rs[1..], cs[1..])
  }

  lemma {:induction false} DotFromBack(rs: seq<real>, cs: seq<real>)
    requires |rs| == |cs| > 0
    ensures
      var n := |rs| - 1;
      Dot(rs, cs) == Dot(rs[..n], cs[..n]) + rs[n] * cs[n]
  {
    var n := |rs| - 1;
    if n > 0 {
      DotFromBack(rs[1..], cs[1..]);
      assert rs[1..][..n - 1] == rs[..n][1..] && cs[1..][..n - 1] == cs[..n][1..];
    } else {
      assert rs[1..] == [] && rs[..n] == [];
    }
  }

  lemma {:induction false} WeightedIs(rs: seq<real>, cs: seq<real>, n: nat)
    requires n <= |rs| && n <= |cs|
    ensures Combined(WeightedAvg, rs, cs, n) == Dot(rs[..n], cs[..n])
  {
    if n > 0 {
      WeightedIs(rs, cs, n - 1);
      DotFromBack(rs[..n], cs[..n]);
      assert rs[..n][..n - 1] == rs[..n - 1] && cs[..n][..n - 1] == cs[..n - 1];
    }
  }

  lemma {:induction false} DotZero(rs: seq<real>, cs: seq<real>)
    requires |rs| == |cs| && forall i :: 0 <= i < |cs| ==> cs[i] == 0.0
    ensures Dot(rs, cs) == 0.0
  {
    if rs != [] {
      DotZero(rs[1..], cs[1..]);
    }
  }

  lemma {:induction false} DotSingle(rs: seq<real>, cs: seq<real>, i: nat)
    requires |rs| == |cs| && i < |cs| && forall j :: 0 <= j < |cs| && j != i ==> cs[j] == 0.0
    ensures Dot(rs, cs) == rs[i] * cs[i]
  {
    if i == 0 {
      DotZero(rs[1..], cs[1..]);
    } else {
      DotSingle(rs[1..], cs[1..], i - 1);
    }
  }

  /** A single coefficient that is not zero weighs its own reading alone. */
  lemma SingleWeight(rs: seq<real>, cs: seq<real>, i: nat)
    requires |rs| == |cs| && i < |cs| && forall j :: 0 <= j < |cs| && j != i ==> cs[j] == 0.0
    ensures Combined(WeightedAvg, rs, cs, |rs|) == rs[i] * cs[i]
  {
    WeightedIs(rs, cs, |rs|);
    assert rs[..|rs|] == rs && cs[..|rs|] == cs;
    DotSingle(rs, cs, i);
  }

  predicate AddUp(xs: seq<real>, ys: seq<real>, zs: seq<real>) {
    |xs| == |ys| == |zs| && forall i :: 0 <= i < |xs| ==> xs[i] == ys[i] + zs[i]
  }

  lemma Distributes(r: real, x: real, y: real)
    ensures r * (x + y) == r * x + r * y && (x + y) * r == x * r + y * r
  {
  }

  lemma {:induction false} DotAdds(rs: seq<real>, as_: seq<real>, bs: seq<real>, cs: seq<real>)
    requires AddUp(cs, as_, bs) && |rs| == |cs|
    ensures Dot(rs, cs) == Dot(rs, as_) + Dot(rs, bs) && Dot(cs, rs) == Dot(as_, rs) + Dot(bs, rs)
  {
    if rs != [] {
      DotAdds(rs[1..], as_[1..], bs[1..], cs[1..]);
      Distributes(rs[0], as_[0], bs[0]);
    }
  }

  /** The average is additive in the coefficients and in the readings. */
  lemma WeightedAdds(rs: seq<real>, as_: seq<real>, bs: seq<real>, cs: seq<real>)
    requires AddUp(cs, as_, bs) && |rs| == |cs|
    ensures
      var n := |rs|;
      && Combined(WeightedAvg, rs, cs, n) == Combined(WeightedAvg, rs, as_, n) + Combined(WeightedAvg, rs, bs, n)
      && Combined(WeightedAvg, cs, rs, n) == Combined(WeightedAvg, as_, rs, n) + Combined(WeightedAvg, bs, rs, n)
  {
    var n := |rs|;
    assert rs[..n] == rs && cs[..n] == cs && as_[..n] == as_ && bs[..n] == bs;
    WeightedIs(rs, cs, n);
    WeightedIs(rs, as_, n);
    WeightedIs(rs, bs, n);
    WeightedIs(cs, rs, n);
    WeightedIs(as_, rs, n);
    WeightedIs(bs, rs, n);
    DotAdds(rs, as_, bs, cs);
  }

  function Sum(cs: seq<real>): real {
    if cs == [] then 0.0 else cs[0] + Sum(cs[1..])
  }

  lemma Weighs(lo: real, r: real, hi: real, c: real)
    requires lo <= r <= hi && c >= 0.0
    ensures lo * c <= r * c <= hi * c
  {
  }

  lemma {:induction false} DotBetween(rs: seq<real>, cs: seq<real>, lo: real, hi: real)
    requires |rs| == |cs| && (forall i :: 0 <= i < |cs| ==> cs[i] >= 0.0) && forall i :: 0 <= i < |rs| ==> lo <= rs[i] <= hi
    ensures lo * Sum(cs) <= Dot(rs, cs) <= hi * Sum(cs)
  {
    if rs != [] {
      DotBetween(rs[1..], cs[1..], lo, hi);
      OneMore(lo, hi, rs[0], cs[0], Sum(cs[1..]), Dot(rs[1..], cs[1..]));
    }
  }

  lemma OneMore(lo: real, hi: real, r: real, c: real, sum: real, dot: real)
    requires lo <= r <= hi && c >= 0.0 && lo * sum <= dot <= hi * sum
    ensures lo * (c + sum) <= r * c + dot <= hi * (c + sum)
  {
    Weighs(lo, r, hi, c);
    Distributes(lo, c, sum);
    Distributes(hi, c, sum);
  }

  /** With coefficients that are not negative and add up to 1 it is an average: between any bounds of the readings. */
  lemma WeightedIsAverage(rs: seq<real>, cs: seq<real>, lo: real, hi: real)
    requires |rs| == |cs| && (forall i :: 0 <= i < |cs| ==> cs[i] >= 0.0) && Sum(cs) == 1.0
    requires forall i :: 0 <= i < |rs| ==> lo <= rs[i] <= hi
    ensures lo <= Combined(WeightedAvg, rs, cs, |rs|) <= hi
  {
    WeightedIs(rs, cs, |rs|);
    assert rs[..|rs|] == rs && cs[..|rs|] == cs;
    DotBetween(rs, cs, lo, hi);
  }

  // ---------- MAXIMUM, MINIMUM and COUNT_THRESHOLD ----------

  /** Every term is in the range of a float. */
  predicate InRange(rs: seq<real>, cs: seq<real>) {
    |rs| == |cs| && forall i :: 0 <= i < |rs| ==>
      -340282346638528859811704183484516925440.0 <= rs[i] * cs[i] <= 340282346638528859811704183484516925440.0
  }

  predicate IsMaximum(x: real, rs: seq<real>, cs: seq<real>)
    requires |rs| == |cs|
  {
    (forall i :: 0 <= i < |rs| ==> rs[i] * cs[i] <= x) && exists i :: 0 <= i < |rs| && rs[i] * cs[i] == x
  }

  predicate IsMinimum(x: real, rs: seq<real>, cs: seq<real>)
    requires |rs| == |cs|
  {
    (forall i :: 0 <= i < |rs| ==> rs[i] * cs[i] >= x) && exists i :: 0 <= i < |rs| && rs[i] * cs[i] == x
  }

  lemma MaximumIsMaximum(rs: seq<real>, cs: seq<real>)
    requires InRange(rs, cs) && rs != []
    ensures IsMaximum(Combined(Maximum, rs, cs, |rs|), rs, cs)
  {
    forall i | 0 <= i < |rs|
      ensures Product(rs[i], cs[i]) == rs[i] * cs[i] && Product(rs[i], cs[i]) >= LOWEST
    {
    }
    MaximumIsGreatest(rs, cs, |rs|);
    var i :| 0 <= i < |rs| && Product(rs[i], cs[i]) == Combined(Maximum, rs, cs, |rs|);
    assert rs[i] * cs[i] == Combined(Maximum, rs, cs, |rs|);
  }

  lemma MinimumIsMinimum(rs: seq<real>, cs: seq<real>)
    requires InRange(rs, cs) && rs != []
    ensures IsMinimum(Combined(Minimum, rs, cs, |rs|), rs, cs)
  {
    forall i | 0 <= i < |rs|
      ensures Product(rs[i], cs[i]) == rs[i] * cs[i] && Product(rs[i], cs[i]) <= HIGHEST
    {
    }
    MinimumIsLeast(rs, cs, |rs|);
    var i :| 0 <= i < |rs| && Product(rs[i], cs[i]) == Combined(Minimum, rs, cs, |rs|);
    assert rs[i] * cs[i] == Combined(Minimum, rs, cs, |rs|);
  }

  /** The links whose reading is at or above their threshold, or below its magnitude if it is negative. */
  function Counted(rs: seq<real>, cs: seq<real>): set<nat>
    requires |rs| == |cs|
  {
    set i: nat | i < |rs| && ((cs[i] >= 0.0 && rs[i] >= cs[i]) || (cs[i] < 0.0 && rs[i] < -cs[i]))
  }

  lemma CountIsCount(rs: seq<real>, cs: seq<real>)
    requires |rs| == |cs|
    ensures Combined(CountThreshold, rs, cs, |rs|) == |Counted(rs, cs)| as real
  {
    CountIsCardinality(rs, cs, |rs|);
    assert Counted(rs, cs) == Hits(rs, cs, |rs|);
  }

  // ---------- A virtual sensor ----------

  /** x is what the formula makes of the readings and coefficients. */
  predicate Computes(f: Formula, x: real, rs: seq<real>, cs: seq<real>)
    requires |rs| == |cs|
  {
    match f
    case CountThreshold => x == |Counted(rs, cs)| as real
    case WeightedAvg => x == Dot(rs, cs)
    case Maximum => if rs == [] then x == 0.0 else InRange(rs, cs) ==> IsMaximum(x, rs, cs)
    case Minimum => if rs == [] then x == 0.0 else InRange(rs, cs) ==> IsMinimum(x, rs, cs)
  }

  lemma CombinedComputes(f: Formula, rs: seq<real>, cs: seq<real>)
    requires |rs| == |cs|
    ensures Computes(f, Combined(f, rs, cs, |rs|), rs, cs)
  {
    assert rs[..|rs|] == rs && cs[..|rs|] == cs;
    match f
    case CountThreshold => CountIsCount(rs, cs);
    case WeightedAvg => WeightedIs(rs, cs, |rs|);
    case Maximum => if InRange(rs, cs) && rs != [] { MaximumIsMaximum(rs, cs); }
    case Minimum => if InRange(rs, cs) && rs != [] { MinimumIsMinimum(rs, cs); }
  }

  /** What a link gives: the temperature of its sensor, nothing if there is no such sensor, the power of its rail, missing
      while that is being collected, or its number. */
  ghost predicate Gives(c: Config, w: World, g: Given, l: Link, x: Reading)
    requires Acyclic(c) && PowerKnown(c, w) && (l.kind.FromPower? ==> l.name in w.power)
  {
    match l.kind
    case FromSensor => x == if l.name in c.sensors then Value(c, w, g, l.name) else Failed
    case FromPower => x == if w.power[l.name].Some? then Got(w.power[l.name].value) else Missing
    case FromConstant(k) => x == Got(k)
  }

  /** The values of all links, or what the first link without a value gives. */
  ghost predicate GivesAll(c: Config, w: World, g: Given, links: seq<Link>, xs: Readings)
    requires Acyclic(c) && PowerKnown(c, w) && RailsKnown(links, w)
  {
    match xs
    case All(vs) => |vs| == |links| && forall i :: 0 <= i < |links| ==> Gives(c, w, g, links[i], Got(vs[i]))
    case Bad(x) => !x.Got? && exists k: nat :: k < |links| && FirstWithout(c, w, g, links, k, x)
  }

  /** Link k gives x, and every link before it a value. */
  ghost predicate FirstWithout(c: Config, w: World, g: Given, links: seq<Link>, k: nat, x: Reading)
    requires Acyclic(c) && PowerKnown(c, w) && RailsKnown(links, w) && k < |links|
  {
    Gives(c, w, g, links[k], x) && forall i :: 0 <= i < k ==> GivesSome(c, w, g, links[i])
  }

  ghost predicate GivesSome(c: Config, w: World, g: Given, l: Link)
    requires Acyclic(c) && PowerKnown(c, w) && (l.kind.FromPower? ==> l.name in w.power)
  {
    exists v :: Gives(c, w, g, l, Got(v))
  }

  lemma SourceGives(c: Config, w: World, g: Given, l: Link, r: nat)
    requires Acyclic(c) && PowerKnown(c, w) && (l.kind.FromPower? ==> l.name in w.power)
    requires l.name in c.sensors ==> l.name in c.rank && c.rank[l.name] < r
    ensures Gives(c, w, g, l, Source(c, w, g, l, r))
  {
  }

  lemma {:induction false} SourcesGive(c: Config, w: World, g: Given, links: seq<Link>, r: nat, n: nat)
    requires Acyclic(c) && PowerKnown(c, w) && RanksBelow(c, links, r) && RailsKnown(links, w) && n <= |links|
    ensures GivesAll(c, w, g, links[..n], Sources(c, w, g, links, r, n))
  {
    hide Source, Gives, Acyclic, PowerKnown;
    if n > 0 {
      SourcesGive(c, w, g, links, r, n - 1);
      SourceGives(c, w, g, links[n - 1], r);
      var before, part, some := Sources(c, w, g, links, r, n - 1), links[..n - 1], links[..n];
      assert forall i :: 0 <= i < n - 1 ==> part[i] == some[i];
      assert some[n - 1] == links[n - 1];
      match before {
        case Bad(x) =>
          var k: nat :| k < |part| && FirstWithout(c, w, g, part, k, x);
          forall i | 0 <= i < k
            ensures GivesSome(c, w, g, some[i])
          {
            assert GivesSome(c, w, g, part[i]);
          }
          assert FirstWithout(c, w, g, some, k, x);
        case All(vs) =>
          forall i | 0 <= i < n - 1
            ensures Gives(c, w, g, some[i], Got(vs[i])) && GivesSome(c, w, g, some[i])
          {
            assert Gives(c, w, g, part[i], Got(vs[i]));
          }
          var x := Source(c, w, g, links[n - 1], r);
          assert FirstWithout(c, w, g, some, n - 1, x);
      }
    }
  }

  /** x is what the formula makes of rs and cs, plus the offset, or the first of them that is no value. */
  ghost predicate ReadsAs(v: Virtual, rs: Readings, cs: Readings, x: Reading) {
    if rs.Bad? then x == rs.reading
    else if cs.Bad? then x == cs.reading
    else |rs.values| == |cs.values| && x.Got? && Computes(v.formula, x.value - v.offset, rs.values, cs.values)
  }

  /** A virtual sensor computes what its formula makes of its links and coefficients, plus its offset; without one of them
      it reads what the first missing one does, links first. */
  lemma VirtualReads(c: Config, w: World, g: Given, s: string)
    requires Acyclic(c) && PowerKnown(c, w) && s in c.sensors && c.sensors[s].virtual.Some?
    ensures
      var v := c.sensors[s].virtual.value;
      exists rs: Readings, cs: Readings ::
        GivesAll(c, w, g, v.links, rs) && GivesAll(c, w, g, v.coefficients, cs) && ReadsAs(v, rs, cs, Raw(c, w, g, s))
  {
    assert Ranked(c, s);
    var v, r := c.sensors[s].virtual.value, c.rank[s];
    var rs, cs := Sources(c, w, g, v.links, r, |v.links|), Sources(c, w, g, v.coefficients, r, |v.coefficients|);
    assert v.links[..|v.links|] == v.links && v.coefficients[..|v.coefficients|] == v.coefficients;
    SourcesGive(c, w, g, v.links, r, |v.links|);
    SourcesGive(c, w, g, v.coefficients, r, |v.coefficients|);
    hide Sources, Combined, GivesAll, Computes;
    if rs.All? && cs.All? {
      CombinedComputes(v.formula, rs.values, cs.values);
      var x := Combined(v.formula, rs.values, cs.values, |rs.values|);
      assert Raw(c, w, g, s) == Got(x + v.offset) && x + v.offset - v.offset == x;
    }
    assert ReadsAs(v, rs, cs, Raw(c, w, g, s));
  }
}
