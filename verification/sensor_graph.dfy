/** Sensor configuration and the temperature each sensor should read: the pure recursive value over
    the link graph (thermal/thermal-helper.cpp, thermal/utils/thermal_info.h). */
module SensorGraph {
  import opened Options
  import opened Severities

  /** Where a linked value comes from: another sensor, a power rail, or the number itself. */
  datatype Kind = FromSensor | FromPower | FromConstant(value: real)

  datatype Link = Link(name: string, kind: Kind)

  datatype Formula = CountThreshold | WeightedAvg | Maximum | Minimum

  datatype Virtual = Virtual(links: seq<Link>, coefficients: seq<Link>, offset: real, triggers: seq<string>, formula: Formula)

  datatype SensorInfo = SensorInfo(
    hot: Table, cold: Table, multiplier: real, pollingDelay: int, passiveDelay: int, timeResolution: int,
    stepRatio: Option<real>, sendCb: bool, isWatch: bool, virtual: Option<Virtual>)

  /** The sensors, and a numbering that shows their link graph to be acyclic. */
  datatype Config = Config(sensors: map<string, SensorInfo>, rank: map<string, nat>, top: nat)

  predicate RanksBelow(c: Config, links: seq<Link>, r: nat) {
    forall i :: 0 <= i < |links| && links[i].name in c.sensors ==>
                  links[i].name in c.rank && c.rank[links[i].name] < r
  }

  predicate Ranked(c: Config, s: string)
    requires s in c.sensors
  {
    && s in c.rank && c.rank[s] <= c.top
    && (c.sensors[s].virtual.Some? ==>
          && |c.sensors[s].virtual.value.links| == |c.sensors[s].virtual.value.coefficients|
          && RanksBelow(c, c.sensors[s].virtual.value.links, c.rank[s])
          && RanksBelow(c, c.sensors[s].virtual.value.coefficients, c.rank[s]))
  }

  predicate Acyclic(c: Config) {
    forall s :: s in c.sensors ==> Ranked(c, s)
  }

  /** What the kernel reports: thermal zone files that can be read, and rail power, None while collecting. */
  datatype World = World(files: map<string, real>, power: map<string, Option<real>>)

  predicate RailsKnown(links: seq<Link>, w: World) {
    forall i :: 0 <= i < |links| && links[i].kind.FromPower? ==> links[i].name in w.power
  }

  /** Every rail a sensor refers to is collected; the source aborts otherwise. */
  predicate PowerKnown(c: Config, w: World) {
    forall s :: s in c.sensors && c.sensors[s].virtual.Some? ==>
                  && RailsKnown(c.sensors[s].virtual.value.links, w)
                  && RailsKnown(c.sensors[s].virtual.value.coefficients, w)
  }

  /** A read fails, yields NaN because data is still being collected, or yields a temperature. */
  datatype Reading = Failed | Missing | Got(value: real)

  datatype Readings = Bad(reading: Reading) | All(values: seq<real>)

  // ---------- The formulas ----------

  const LOWEST: real := -340282346638528859811704183484516925440.0
  const HIGHEST: real := 340282346638528859811704183484516925440.0

  function Product(x: real, y: real): real {
    x * y
  }

  /** A negative coefficient counts readings below its magnitude, another one readings at or above it. */
  predicate Hit(reading: real, coefficient: real) {
    if coefficient < 0.0 then reading < -coefficient else reading >= coefficient
  }

  /** The accumulator after the first n terms. */
  function Combined(f: Formula, rs: seq<real>, cs: seq<real>, n: nat): real
    requires n <= |rs| && n <= |cs|
  {
    if n == 0 then 0.0
    else
      var before := Combined(f, rs, cs, n - 1);
      var p := Product(rs[n - 1], cs[n - 1]);
      match f
      case CountThreshold => if Hit(rs[n - 1], cs[n - 1]) then before + 1.0 else before
      case WeightedAvg => before + p
      case Maximum => var best := if n == 1 then LOWEST else before; if p > best then p else best
      case Minimum => var best := if n == 1 then HIGHEST else before; if p < best then p else best
  }

  /** MAXIMUM is attained by a term and is at least every term, given terms in the range of a float. */
  lemma {:induction false} MaximumIsGreatest(rs: seq<real>, cs: seq<real>, n: nat)
    requires 0 < n <= |rs| && n <= |cs|
    requires forall i :: 0 <= i < n ==> Product(rs[i], cs[i]) >= LOWEST
    ensures forall i :: 0 <= i < n ==> Product(rs[i], cs[i]) <= Combined(Maximum, rs, cs, n)
    ensures exists i :: 0 <= i < n && Product(rs[i], cs[i]) == Combined(Maximum, rs, cs, n)
  {
    hide Product;
    if n > 1 {
      MaximumIsGreatest(rs, cs, n - 1);
    } else {
      assert Product(rs[0], cs[0]) == Combined(Maximum, rs, cs, n);
    }
  }

  lemma {:induction false} MinimumIsLeast(rs: seq<real>, cs: seq<real>, n: nat)
    requires 0 < n <= |rs| && n <= |cs|
    requires forall i :: 0 <= i < n ==> Product(rs[i], cs[i]) <= HIGHEST
    ensures forall i :: 0 <= i < n ==> Product(rs[i], cs[i]) >= Combined(Minimum, rs, cs, n)
    ensures exists i :: 0 <= i < n && Product(rs[i], cs[i]) == Combined(Minimum, rs, cs, n)
  {
    hide Product;
    if n > 1 {
      MinimumIsLeast(rs, cs, n - 1);
    } else {
      assert Product(rs[0], cs[0]) == Combined(Minimum, rs, cs, n);
    }
  }

  function Hits(rs: seq<real>, cs: seq<real>, n: nat): set<nat>
    requires n <= |rs| && n <= |cs|
  {
    set i: nat | i < n && Hit(rs[i], cs[i])
  }

  /** COUNT_THRESHOLD is the number of terms that hit. */
  lemma {:induction false} CountIsCardinality(rs: seq<real>, cs: seq<real>, n: nat)
    requires n <= |rs| && n <= |cs|
    ensures Combined(CountThreshold, rs, cs, n) == |Hits(rs, cs, n)| as real
  {
    if n > 0 {
      CountIsCardinality(rs, cs, n - 1);
      var before, after := Hits(rs, cs, n - 1), Hits(rs, cs, n);
      if Hit(rs[n - 1], cs[n - 1]) {
        assert after == before + {n - 1};
      } else {
        assert after == before;
      }
    }
  }

  // ---------- The value of a sensor ----------

  /** Temperatures that are taken as they are, and samples that a smoothed sensor blends its reading with. */
  datatype Given = Given(taken: map<string, real>, blended: map<string, real>)

  function Smoothed(info: SensorInfo, g: Given, s: string, x: Reading): Reading {
    if x.Got? && info.stepRatio.Some? && s in g.blended
    then Got(Product(info.stepRatio.value, x.value) + Product(1.0 - info.stepRatio.value, g.blended[s]))
    else x
  }

  function Source(c: Config, w: World, g: Given, l: Link, r: nat): Reading
    requires Acyclic(c) && PowerKnown(c, w)
    requires l.name in c.sensors ==> l.name in c.rank && c.rank[l.name] < r
    requires l.kind.FromPower? ==> l.name in w.power
    decreases r, 0, 0
  {
    match l.kind
    case FromSensor => if l.name in c.sensors then Value(c, w, g, l.name) else Failed
    case FromPower => if w.power[l.name].Some? then Got(w.power[l.name].value) else Missing
    case FromConstant(value) => Got(value)
  }

  /** The first n links, or the first of them that gives no value. */
  function Sources(c: Config, w: World, g: Given, links: seq<Link>, r: nat, n: nat): (rs: Readings)
    requires Acyclic(c) && PowerKnown(c, w) && RanksBelow(c, links, r) && RailsKnown(links, w) && n <= |links|
    ensures rs.All? ==> |rs.values| == n
    ensures rs.Bad? ==> !rs.reading.Got?
    decreases r, 1, n
  {
    if n == 0 then All([])
    else
      match Sources(c, w, g, links, r, n - 1)
      case Bad(reading) => Bad(reading)
      case All(values) =>
        match Source(c, w, g, links[n - 1], r)
        case Got(value) => All(values + [value])
        case other => Bad(other)
  }

  /** What a sensor computes: its file, or its formula over the sensors it links to. */
  function Raw(c: Config, w: World, g: Given, s: string): Reading
    requires Acyclic(c) && PowerKnown(c, w) && s in c.sensors
    decreases if s in c.rank then c.rank[s] else 0, 2, 0
  {
    assert Ranked(c, s);
    match c.sensors[s].virtual
    case None => if s in w.files then Got(w.files[s]) else Failed
    case Some(v) =>
      match Sources(c, w, g, v.links, c.rank[s], |v.links|)
      case Bad(reading) => reading
      case All(rs) =>
        match Sources(c, w, g, v.coefficients, c.rank[s], |v.coefficients|)
        case Bad(reading) => reading
        case All(cs) => Got(Combined(v.formula, rs, cs, |v.links|) + v.offset)
  }

  /** The temperature of a sensor: the one given for it if there is one, otherwise what it computes, smoothed. */
  function Value(c: Config, w: World, g: Given, s: string): Reading
    requires Acyclic(c) && PowerKnown(c, w) && s in c.sensors
    decreases if s in c.rank then c.rank[s] else 0, 3, 0
  {
    if s in g.taken then Got(g.taken[s]) else Smoothed(c.sensors[s], g, s, Raw(c, w, g, s))
  }

  lemma {:induction false} BadStays(c: Config, w: World, g: Given, links: seq<Link>, r: nat, n: nat, m: nat)
    requires Acyclic(c) && PowerKnown(c, w) && RanksBelow(c, links, r) && RailsKnown(links, w) && n <= m <= |links|
    requires Sources(c, w, g, links, r, n).Bad?
    ensures Sources(c, w, g, links, r, m) == Sources(c, w, g, links, r, n)
  {
    if n < m {
      BadStays(c, w, g, links, r, n, m - 1);
    }
  }

  // ---------- What a reading depends on ----------

  predicate ReadsFrom(links: seq<Link>, x: string) {
    exists i :: 0 <= i < |links| && links[i].kind.FromSensor? && links[i].name == x
  }

  /** s computes its temperature from sensor x, as a link or as a coefficient. */
  predicate Reads(c: Config, x: string, s: string) {
    && x in c.sensors && s in c.sensors && c.sensors[s].virtual.Some?
    && (ReadsFrom(c.sensors[s].virtual.value.links, x) || ReadsFrom(c.sensors[s].virtual.value.coefficients, x))
  }

  ghost predicate Closed(c: Config, d: set<string>) {
    forall x, s :: s in d && Reads(c, x, s) ==> x in d
  }

  /** On d, h gives what g gives, and otherwise only what the sensors would read anyway. */
  ghost predicate AddsOwnValues(c: Config, w: World, g: Given, h: Given, d: set<string>)
    requires Acyclic(c) && PowerKnown(c, w)
  {
    forall s :: s in d && s in c.sensors ==> AddsOwnValue(c, w, g, h, s)
  }

  predicate AddsOwnValue(c: Config, w: World, g: Given, h: Given, s: string)
    requires Acyclic(c) && PowerKnown(c, w) && s in c.sensors
  {
    && (s in g.taken ==> s in h.taken && h.taken[s] == g.taken[s])
    && (s in h.taken && s !in g.taken ==> Value(c, w, g, s) == Got(h.taken[s]))
    && (s !in h.taken && c.sensors[s].stepRatio.Some? ==>
          (s in g.blended <==> s in h.blended) && (s in g.blended ==> g.blended[s] == h.blended[s]))
  }

  predicate Within(c: Config, links: seq<Link>, d: set<string>) {
    forall i :: 0 <= i < |links| && links[i].kind.FromSensor? && links[i].name in c.sensors ==> links[i].name in d
  }

  lemma ClosedLinks(c: Config, d: set<string>, s: string)
    requires Closed(c, d) && s in d && s in c.sensors && c.sensors[s].virtual.Some?
    ensures Within(c, c.sensors[s].virtual.value.links, d) && Within(c, c.sensors[s].virtual.value.coefficients, d)
  {
    var v := c.sensors[s].virtual.value;
    forall i | 0 <= i < |v.links| && v.links[i].kind.FromSensor? && v.links[i].name in c.sensors
      ensures v.links[i].name in d
    {
      assert ReadsFrom(v.links, v.links[i].name);
      assert Reads(c, v.links[i].name, s);
    }
    forall i | 0 <= i < |v.coefficients| && v.coefficients[i].kind.FromSensor? && v.coefficients[i].name in c.sensors
      ensures v.coefficients[i].name in d
    {
      assert ReadsFrom(v.coefficients, v.coefficients[i].name);
      assert Reads(c, v.coefficients[i].name, s);
    }
  }

  lemma {:induction false} AgreeOnLinks(c: Config, w: World, g: Given, h: Given, d: set<string>, links: seq<Link>, r: nat, n: nat)
    requires Acyclic(c) && PowerKnown(c, w) && Closed(c, d) && AddsOwnValues(c, w, g, h, d)
    requires RanksBelow(c, links, r) && RailsKnown(links, w) && n <= |links| && Within(c, links, d)
    ensures Sources(c, w, g, links, r, n) == Sources(c, w, h, links, r, n)
    decreases r, 0, n
  {
    if n > 0 {
      AgreeOnLinks(c, w, g, h, d, links, r, n - 1);
      if links[n - 1].kind.FromSensor? && links[n - 1].name in c.sensors {
        AgreeAt(c, w, g, h, d, links[n - 1].name);
      }
    }
  }

  lemma {:induction false} AgreeRaw(c: Config, w: World, g: Given, h: Given, d: set<string>, s: string)
    requires Acyclic(c) && PowerKnown(c, w) && Closed(c, d) && AddsOwnValues(c, w, g, h, d) && s in d && s in c.sensors
    ensures Raw(c, w, g, s) == Raw(c, w, h, s)
    decreases if s in c.rank then c.rank[s] else 0, 1, 0
  {
    hide Combined, AddsOwnValues, Closed, Within;
    assert Ranked(c, s);
    var info := c.sensors[s];
    if info.virtual.Some? {
      ClosedLinks(c, d, s);
      AgreeOnLinks(c, w, g, h, d, info.virtual.value.links, c.rank[s], |info.virtual.value.links|);
      AgreeOnLinks(c, w, g, h, d, info.virtual.value.coefficients, c.rank[s], |info.virtual.value.coefficients|);
    }
  }

  lemma {:induction false} AgreeAt(c: Config, w: World, g: Given, h: Given, d: set<string>, s: string)
    requires Acyclic(c) && PowerKnown(c, w) && Closed(c, d) && AddsOwnValues(c, w, g, h, d) && s in d && s in c.sensors
    ensures Value(c, w, g, s) == Value(c, w, h, s)
    decreases if s in c.rank then c.rank[s] else 0, 2, 0
  {
    hide Raw, Closed;
    assert AddsOwnValue(c, w, g, h, s);
    if s !in h.taken {
      AgreeRaw(c, w, g, h, d, s);
    }
  }

  /** Giving sensors of a closed set the values they have changes no reading in the set, however
      sub-sensors are shared and whatever is given elsewhere. */
  lemma OwnValuesAddNothing(c: Config, w: World, g: Given, h: Given, d: set<string>)
    requires Acyclic(c) && PowerKnown(c, w) && Closed(c, d) && AddsOwnValues(c, w, g, h, d)
    ensures forall s :: s in d && s in c.sensors ==> Value(c, w, g, s) == Value(c, w, h, s)
  {
    forall s | s in d && s in c.sensors
      ensures Value(c, w, g, s) == Value(c, w, h, s)
    {
      AgreeAt(c, w, g, h, d, s);
    }
  }

  ghost predicate ReadChain(c: Config, p: seq<string>) {
    |p| >= 2 && forall i :: 0 <= i < |p| - 1 ==> Reads(c, p[i], p[i + 1])
  }

  /** The temperature of s is computed, through any number of sensors, watched or not, from that of t. */
  ghost predicate Depends(c: Config, t: string, s: string) {
    exists p :: ReadChain(c, p) && p[0] == t && p[|p| - 1] == s
  }

  lemma DependsExtends(c: Config, t: string, x: string, s: string)
    requires Reads(c, x, s) && (x == t || Depends(c, t, x))
    ensures Depends(c, t, s)
  {
    var p := [t];
    if x != t {
      p :| ReadChain(c, p) && p[0] == t && p[|p| - 1] == x;
    }
    var q := p + [s];
    forall i | 0 <= i < |q| - 1
      ensures Reads(c, q[i], q[i + 1])
    {
      if i < |p| - 1 {
        assert Reads(c, p[i], p[i + 1]);
      }
    }
    assert ReadChain(c, q) && q[0] == t && q[|q| - 1] == s;
  }

  lemma DependsPrepends(c: Config, x: string, y: string, s: string)
    requires Reads(c, x, y) && (y == s || Depends(c, y, s))
    ensures Depends(c, x, s)
  {
    var p := [s];
    if y != s {
      p :| ReadChain(c, p) && p[0] == y && p[|p| - 1] == s;
    }
    var q := [x] + p;
    forall i | 0 <= i < |q| - 1
      ensures Reads(c, q[i], q[i + 1])
    {
      if i > 0 {
        assert Reads(c, p[i - 1], p[i - 1 + 1]);
      }
    }
    assert ReadChain(c, q) && q[0] == x && q[|q| - 1] == s;
  }

  lemma {:induction false} ChainRaisesRank(c: Config, p: seq<string>, i: nat)
    requires Acyclic(c) && ReadChain(c, p) && 0 < i < |p|
    ensures p[0] in c.sensors && p[i] in c.sensors && p[0] in c.rank && p[i] in c.rank && c.rank[p[0]] < c.rank[p[i]]
  {
    ReadsRaisesRank(c, p[i - 1], p[i]);
    if i > 1 {
      ChainRaisesRank(c, p, i - 1);
    }
  }

  lemma ReadsRaisesRank(c: Config, x: string, s: string)
    requires Acyclic(c) && Reads(c, x, s)
    ensures x in c.rank && s in c.rank && c.rank[x] < c.rank[s]
  {
    assert Ranked(c, s) && Ranked(c, x);
  }

  /** s and every sensor it is computed from. */
  ghost function Upstream(c: Config, s: string): (d: set<string>)
    ensures d <= c.sensors.Keys
  {
    set x | x in c.sensors && (x == s || Depends(c, x, s))
  }

  lemma UpstreamIsClosed(c: Config, s: string)
    ensures Closed(c, Upstream(c, s))
  {
    hide Depends;
    forall x, y | y in Upstream(c, s) && Reads(c, x, y)
      ensures x in Upstream(c, s)
    {
      DependsPrepends(c, x, y, s);
    }
  }

  /** A closed set holds everything its members are computed from. */
  lemma {:induction false} ChainStays(c: Config, d: set<string>, p: seq<string>, i: nat)
    requires Closed(c, d) && ReadChain(c, p) && i < |p| && p[|p| - 1] in d
    ensures p[i] in d
    decreases |p| - i
  {
    if i < |p| - 1 {
      ChainStays(c, d, p, i + 1);
      assert Reads(c, p[i], p[i + 1]);
    }
  }

  lemma UpstreamStays(c: Config, d: set<string>, s: string)
    requires Closed(c, d) && s in d
    ensures Upstream(c, s) <= d
  {
    forall x | x in Upstream(c, s) && x != s
      ensures x in d
    {
      var p :| ReadChain(c, p) && p[0] == x && p[|p| - 1] == s;
      ChainStays(c, d, p, 0);
    }
  }

  lemma UpstreamRanks(c: Config, s: string, x: string)
    requires Acyclic(c) && s in c.sensors && x in Upstream(c, s)
    ensures x in c.rank && s in c.rank && c.rank[x] <= c.rank[s]
  {
    assert Ranked(c, s);
    if x != s {
      var p :| ReadChain(c, p) && p[0] == x && p[|p| - 1] == s;
      ChainRaisesRank(c, p, |p| - 1);
    }
  }

  predicate Known(c: Config, l: Link) {
    l.kind.FromSensor? && l.name in c.sensors
  }

  /** The sensors that reading the links may read. */
  ghost function UpstreamOf(c: Config, links: seq<Link>): set<string> {
    set i, x | 0 <= i < |links| && Known(c, links[i]) && x in Upstream(c, links[i].name) :: x
  }

  lemma UpstreamOfAppends(c: Config, links: seq<Link>, l: Link)
    ensures UpstreamOf(c, links + [l]) == UpstreamOf(c, links) + UpstreamOf(c, [l])
    ensures UpstreamOf(c, [l]) == if Known(c, l) then Upstream(c, l.name) else {}
  {
    hide Upstream;
    var all := links + [l];
    forall x | x in UpstreamOf(c, links)
      ensures x in UpstreamOf(c, all)
    {
      var i :| 0 <= i < |links| && Known(c, links[i]) && x in Upstream(c, links[i].name);
      assert all[i] == links[i];
    }
    assert all[|links|] == l && [l][0] == l;
  }

  lemma UpstreamOfBelow(c: Config, links: seq<Link>, r: nat)
    requires Acyclic(c) && RanksBelow(c, links, r)
    ensures forall x :: x in UpstreamOf(c, links) ==> x in c.rank && c.rank[x] < r
  {
    hide Upstream;
    forall x | x in UpstreamOf(c, links)
      ensures x in c.rank && c.rank[x] < r
    {
      var i :| 0 <= i < |links| && Known(c, links[i]) && x in Upstream(c, links[i].name);
      UpstreamRanks(c, links[i].name, x);
    }
  }

  function Inputs(v: Virtual): seq<Link> {
    v.links + v.coefficients
  }

  lemma InputsAreRead(c: Config, s: string, l: Link)
    requires s in c.sensors && c.sensors[s].virtual.Some? && l in Inputs(c.sensors[s].virtual.value) && Known(c, l)
    ensures Reads(c, l.name, s)
  {
    var v := c.sensors[s].virtual.value;
    if l in v.links {
      assert ReadsFrom(v.links, l.name);
    } else {
      assert ReadsFrom(v.coefficients, l.name);
    }
  }

  lemma UpstreamOfInputs(c: Config, s: string)
    requires s in c.sensors && c.sensors[s].virtual.Some?
    ensures UpstreamOf(c, Inputs(c.sensors[s].virtual.value)) <= Upstream(c, s)
  {
    hide Upstream, Inputs;
    var links := Inputs(c.sensors[s].virtual.value);
    UpstreamIsClosed(c, s);
    forall x | x in UpstreamOf(c, links)
      ensures x in Upstream(c, s)
    {
      var i :| 0 <= i < |links| && Known(c, links[i]) && x in Upstream(c, links[i].name);
      InputIsUpstream(c, s, links[i]);
      UpstreamStays(c, Upstream(c, s), links[i].name);
    }
  }

  lemma InputIsUpstream(c: Config, s: string, l: Link)
    requires s in c.sensors && c.sensors[s].virtual.Some? && l in Inputs(c.sensors[s].virtual.value) && Known(c, l)
    ensures l.name in Upstream(c, s)
  {
    hide Inputs, Depends;
    InputsAreRead(c, s, l);
    DependsPrepends(c, l.name, s, s);
  }

  /** The sensors that are neither t nor computed from it. */
  ghost function Independent(c: Config, t: string): set<string> {
    set s | s in c.sensors && s != t && !Depends(c, t, s)
  }

  lemma IndependentIsClosed(c: Config, t: string)
    ensures Closed(c, Independent(c, t))
  {
    forall x, s | s in Independent(c, t) && Reads(c, x, s)
      ensures x in Independent(c, t)
    {
      if x == t || Depends(c, t, x) {
        DependsExtends(c, t, x, s);
      }
    }
  }

  function Emulating(g: Given, t: string, v: real): Given {
    g.(taken := g.taken[t := v])
  }

  /** Emulating a temperature changes only what is computed from it. */
  lemma EmulationReachesDependentsOnly(c: Config, w: World, g: Given, t: string, v: real, s: string)
    requires Acyclic(c) && PowerKnown(c, w) && s in c.sensors && s != t && !Depends(c, t, s)
    ensures Value(c, w, g, s) == Value(c, w, Emulating(g, t, v), s)
  {
    var d := Independent(c, t);
    IndependentIsClosed(c, t);
    forall x | x in d && x in c.sensors
      ensures AddsOwnValue(c, w, g, Emulating(g, t, v), x)
    {
    }
    AgreeAt(c, w, g, Emulating(g, t, v), d, s);
  }

  // ---------- Rails ----------

  predicate WithoutRails(links: seq<Link>) {
    forall i :: 0 <= i < |links| ==> !links[i].kind.FromPower?
  }

  /** No sensor reads a power rail. */
  predicate NoRails(c: Config) {
    forall s :: s in c.sensors && c.sensors[s].virtual.Some? ==>
                  WithoutRails(c.sensors[s].virtual.value.links) && WithoutRails(c.sensors[s].virtual.value.coefficients)
  }

  lemma {:induction false} LinksIgnoreRails(c: Config, w: World, w': World, g: Given, links: seq<Link>, r: nat, n: nat)
    requires Acyclic(c) && PowerKnown(c, w) && PowerKnown(c, w') && NoRails(c) && w.files == w'.files
    requires WithoutRails(links) && RanksBelow(c, links, r) && RailsKnown(links, w) && RailsKnown(links, w') && n <= |links|
    ensures Sources(c, w, g, links, r, n) == Sources(c, w', g, links, r, n)
    decreases r, 0, n
  {
    hide NoRails;
    if n > 0 {
      LinksIgnoreRails(c, w, w', g, links, r, n - 1);
      if links[n - 1].kind.FromSensor? && links[n - 1].name in c.sensors {
        RailsDoNotMatter(c, w, w', g, links[n - 1].name);
      }
    }
  }

  /** Without rails a reading depends on the thermal files alone. */
  lemma {:induction false} RailsDoNotMatter(c: Config, w: World, w': World, g: Given, s: string)
    requires Acyclic(c) && PowerKnown(c, w) && PowerKnown(c, w') && NoRails(c) && w.files == w'.files && s in c.sensors
    ensures Value(c, w, g, s) == Value(c, w', g, s)
    decreases if s in c.rank then c.rank[s] else 0, 1, 0
  {
    hide Combined;
    assert Ranked(c, s);
    if c.sensors[s].virtual.Some? {
      var v := c.sensors[s].virtual.value;
      LinksIgnoreRails(c, w, w', g, v.links, c.rank[s], |v.links|);
      LinksIgnoreRails(c, w, w', g, v.coefficients, c.rank[s], |v.coefficients|);
    }
  }

  // ---------- What an emulated sensor feeds ----------

  predicate Links(v: Virtual, t: string) {
    exists i :: 0 <= i < |v.links| && v.links[i].name == t
  }

  /** s is a watched virtual sensor with a link named t. */
  predicate Feeds(c: Config, t: string, s: string) {
    s in c.sensors && c.sensors[s].virtual.Some? && c.sensors[s].isWatch && Links(c.sensors[s].virtual.value, t)
  }

  ghost predicate Chain(c: Config, p: seq<string>) {
    |p| >= 2 && forall i :: 0 <= i < |p| - 1 ==> Feeds(c, p[i], p[i + 1])
  }

  /** A chain of watched virtual sensors leads from t to s. */
  ghost predicate Affected(c: Config, t: string, s: string) {
    exists p :: Chain(c, p) && p[0] == t && p[|p| - 1] == s
  }

  /** s is fed by t directly, or through a sensor that t feeds. */
  ghost predicate FedBy(c: Config, t: string, d: string, s: string) {
    Feeds(c, t, d) && (d == s || Affected(c, d, s))
  }

  lemma FedByIsAffected(c: Config, t: string, d: string, s: string)
    requires FedBy(c, t, d, s)
    ensures Affected(c, t, s)
  {
    if d == s {
      var p := [t, s];
      assert Chain(c, p) && p[0] == t && p[|p| - 1] == s;
    } else {
      var p :| Chain(c, p) && p[0] == d && p[|p| - 1] == s;
      var q := [t] + p;
      forall i | 0 <= i < |q| - 1
        ensures Feeds(c, q[i], q[i + 1])
      {
        if i > 0 {
          assert q[i] == p[i - 1] && q[i + 1] == p[i];
          assert Feeds(c, p[i - 1], p[i - 1 + 1]);
        }
      }
      assert Chain(c, q) && q[0] == t && q[|q| - 1] == s;
    }
  }

  lemma AffectedIsFedBy(c: Config, t: string, s: string) returns (d: string)
    requires Affected(c, t, s)
    ensures FedBy(c, t, d, s)
  {
    var p :| Chain(c, p) && p[0] == t && p[|p| - 1] == s;
    d := p[1];
    assert Feeds(c, p[0], p[0 + 1]);
    if |p| > 2 {
      var q := p[1..];
      forall i | 0 <= i < |q| - 1
        ensures Feeds(c, q[i], q[i + 1])
      {
        assert Feeds(c, p[i + 1], p[i + 1 + 1]);
      }
      assert Chain(c, q) && q[0] == d && q[|q| - 1] == s;
    }
  }

  lemma ChainExtends(c: Config, t: string, x: string, s: string)
    requires Feeds(c, x, s) && (x == t || Affected(c, t, x))
    ensures Affected(c, t, s)
  {
    var p := [t];
    if x != t {
      p :| Chain(c, p) && p[0] == t && p[|p| - 1] == x;
    }
    var q := p + [s];
    forall i | 0 <= i < |q| - 1
      ensures Feeds(c, q[i], q[i + 1])
    {
      if i < |p| - 1 {
        assert Feeds(c, p[i], p[i + 1]);
      }
    }
    assert Chain(c, q) && q[0] == t && q[|q| - 1] == s;
  }

  lemma ChainEnds(c: Config, t: string, s: string) returns (x: string)
    requires Affected(c, t, s)
    ensures Feeds(c, x, s) && (x == t || Affected(c, t, x))
  {
    var p :| Chain(c, p) && p[0] == t && p[|p| - 1] == s;
    var n := |p| - 1;
    x := p[n - 1];
    assert Feeds(c, p[n - 1], p[n - 1 + 1]);
    if n > 1 {
      var q := p[..n];
      forall i | 0 <= i < |q| - 1
        ensures Feeds(c, q[i], q[i + 1])
      {
        assert Feeds(c, p[i], p[i + 1]);
      }
      assert Chain(c, q) && q[0] == t && q[|q| - 1] == x;
    }
  }

  /** A sensor is affected if and only if it is watched and virtual and one of its links names the target or a sensor that
      is affected. */
  lemma AffectedLaw(c: Config, t: string, s: string)
    ensures Affected(c, t, s) <==>
            && s in c.sensors && c.sensors[s].isWatch && c.sensors[s].virtual.Some?
            && exists l :: l in c.sensors[s].virtual.value.links && (l.name == t || Affected(c, t, l.name))
  {
    if Affected(c, t, s) {
      var x := ChainEnds(c, t, s);
      var v := c.sensors[s].virtual.value;
      var i :| 0 <= i < |v.links| && v.links[i].name == x;
      assert v.links[i] in v.links;
    }
    if s in c.sensors && c.sensors[s].isWatch && c.sensors[s].virtual.Some? {
      if l :| l in c.sensors[s].virtual.value.links && (l.name == t || Affected(c, t, l.name)) {
        assert Feeds(c, l.name, s);
        ChainExtends(c, t, l.name, s);
      }
    }
  }

  lemma FeedsRaisesRank(c: Config, t: string, s: string)
    requires Acyclic(c) && t in c.sensors && Feeds(c, t, s)
    ensures s in c.rank && t in c.rank && c.rank[t] < c.rank[s] <= c.top
  {
    assert Ranked(c, s);
  }

  // ---------- Sensors for examples ----------

  function NoBands(): Table {
    Bands([None, None, None, None, None, None, None], [0.0, 0.0, 0.0, 0.0, 0.0, 0.0, 0.0])
  }

  /** A watched sensor without thresholds. */
  function Watched(virtual: Option<Virtual>): SensorInfo {
    SensorInfo(NoBands(), NoBands(), 1.0, 300, 100, 0, None, true, true, virtual)
  }
}
