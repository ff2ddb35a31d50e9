/** ThermalHelperImpl (thermal/thermal-helper.cpp): reading sensors through the cache, emulated
    temperatures, and the watcher pass that turns readings into severities and notifications. */
module ThermalHelper {
  import opened Options
  import opened Severities
  import opened SensorGraph
  import opened Notifications
  import opened SensorStatuses
  import opened WatcherPass

  lemma KnownIsRanked(c: Config, s: string)
    requires Acyclic(c) && s in c.sensors
    ensures s in c.rank
  {
    assert Ranked(c, s);
  }

  lemma LinksKnown(c: Config, w: World, s: string, v: Virtual)
    requires Acyclic(c) && PowerKnown(c, w) && s in c.sensors && c.sensors[s].virtual == Some(v)
    ensures s in c.rank && |v.coefficients| == |v.links| && RailsKnown(v.links, w) && RailsKnown(v.coefficients, w)
    ensures RanksBelow(c, v.links, c.rank[s]) && RanksBelow(c, v.coefficients, c.rank[s])
  {
    assert Ranked(c, s);
  }

  /** One turn of the formula switch. */
  function Accumulate(f: Formula, before: real, reading: real, coefficient: real, first: bool): real {
    var p := Product(reading, coefficient);
    match f
    case CountThreshold =>
      if (coefficient < 0.0 && reading < -coefficient) || (coefficient >= 0.0 && reading >= coefficient)
      then before + 1.0 else before
    case WeightedAvg => before + p
    case Maximum => var best := if first then LOWEST else before; if p > best then p else best
    case Minimum => var best := if first then HIGHEST else before; if p < best then p else best
  }

  lemma {:induction false} CombinedSamePrefix(f: Formula, rs: seq<real>, cs: seq<real>, ds: seq<real>, n: nat)
    requires n <= |rs| && n <= |cs| && n <= |ds| && forall i :: 0 <= i < n ==> cs[i] == ds[i]
    ensures Combined(f, rs, cs, n) == Combined(f, rs, ds, n)
  {
    if n > 0 {
      CombinedSamePrefix(f, rs, cs, ds, n - 1);
    }
  }

  lemma CombinedIgnoresRest(f: Formula, rs: seq<real>, cs: seq<real>, x: real, n: nat)
    requires n == |cs| && n < |rs|
    ensures Combined(f, rs, cs + [x], n) == Combined(f, rs, cs, n)
    ensures Combined(f, rs, cs + [x], n + 1) == Accumulate(f, Combined(f, rs, cs, n), rs[n], x, n == 0)
  {
    CombinedSamePrefix(f, rs, cs + [x], cs, n);
  }

  // ---------- What has been read so far ----------

  lemma LinkRead(c: Config, links: seq<Link>, i: nat, a: Statuses, b: Statuses, d: Statuses, now: int, bypass: bool)
    requires i < |links| && ReadsOf(c, UpstreamOf(c, links[..i]), a, b, now, bypass)
    requires ReadsOf(c, UpstreamOf(c, [links[i]]), b, d, now, bypass)
    ensures ReadsOf(c, UpstreamOf(c, links[..i + 1]), a, d, now, bypass)
  {
    hide ReadsOf, UpstreamOf;
    UpstreamOfAppends(c, links[..i], links[i]);
    assert links[..i + 1] == links[..i] + [links[i]];
    ReadsOfChain(c, UpstreamOf(c, links[..i]), UpstreamOf(c, [links[i]]), a, b, d, now, bypass);
  }

  lemma AllLinksRead(c: Config, links: seq<Link>, i: nat, a: Statuses, b: Statuses, now: int, bypass: bool)
    requires i <= |links| && ReadsOf(c, UpstreamOf(c, links[..i]), a, b, now, bypass)
    ensures ReadsOf(c, UpstreamOf(c, links), a, b, now, bypass)
  {
    hide ReadsOf;
    UpstreamOfPart(c, links, links[..i], 0);
    ReadsOfMore(c, UpstreamOf(c, links[..i]), UpstreamOf(c, links), a, b, now, bypass);
  }

  lemma UpstreamOfPart(c: Config, all: seq<Link>, part: seq<Link>, from: nat)
    requires from + |part| <= |all| && forall i :: 0 <= i < |part| ==> part[i] == all[from + i]
    ensures UpstreamOf(c, part) <= UpstreamOf(c, all)
  {
    hide Upstream;
    forall x | x in UpstreamOf(c, part)
      ensures x in UpstreamOf(c, all)
    {
      var i :| 0 <= i < |part| && Known(c, part[i]) && x in Upstream(c, part[i].name);
      assert all[from + i] == part[i];
    }
  }

  lemma InputsRead(c: Config, v: Virtual, a: Statuses, b: Statuses, d: Statuses, now: int, bypass: bool)
    requires ReadsOf(c, UpstreamOf(c, v.links), a, b, now, bypass)
    requires b == d || ReadsOf(c, UpstreamOf(c, v.coefficients), b, d, now, bypass)
    ensures ReadsOf(c, UpstreamOf(c, Inputs(v)), a, d, now, bypass)
  {
    hide UpstreamOf;
    UpstreamOfPart(c, Inputs(v), v.links, 0);
    UpstreamOfPart(c, Inputs(v), v.coefficients, |v.links|);
    var first, second, all := UpstreamOf(c, v.links), UpstreamOf(c, v.coefficients), UpstreamOf(c, Inputs(v));
    if b == d {
      NothingRead(c, second, b, now, bypass);
    }
    hide ReadsOf;
    ReadsOfChain(c, first, second, a, b, d, now, bypass);
    ReadsOfMore(c, first + second, all, a, d, now, bypass);
  }

  /** A virtual sensor's own status does not change while its inputs are read. */
  lemma SensorRead(c: Config, s: string, v: Virtual, a: Statuses, b: Statuses, now: int, bypass: bool)
    requires Acyclic(c) && s in c.sensors && c.sensors[s].virtual == Some(v)
    requires ReadsOf(c, UpstreamOf(c, Inputs(v)), a, b, now, bypass)
    ensures s in a && a[s] == b[s] && ReadsOf(c, Upstream(c, s), a, b, now, bypass)
  {
    hide Upstream, UpstreamOf;
    UpstreamOfInputs(c, s);
    ReadsOfMore(c, UpstreamOf(c, Inputs(v)), Upstream(c, s), a, b, now, bypass);
    assert Ranked(c, s);
    UpstreamOfBelow(c, Inputs(v), c.rank[s]);
  }

  lemma LinksReadOnce(c: Config, bypass: bool, s: string, v: Virtual, i: nat)
    requires s in c.sensors && c.sensors[s].virtual == Some(v) && ReadOnce(c, bypass, s) && i < |v.links|
    ensures Apart(c, bypass, v.links) && LinkReadOnce(c, bypass, v.links[i])
  {
    hide Apart, LinkReadOnce;
    InputsReadOnce(c, bypass, s, v);
    PartsApart(c, bypass, v);
    assert Inputs(v)[i] == v.links[i];
  }

  lemma CoefficientsReadOnce(c: Config, bypass: bool, s: string, v: Virtual, i: nat)
    requires s in c.sensors && c.sensors[s].virtual == Some(v) && ReadOnce(c, bypass, s) && i < |v.coefficients|
    ensures Apart(c, bypass, v.coefficients) && LinkReadOnce(c, bypass, v.coefficients[i])
  {
    hide Apart, LinkReadOnce;
    InputsReadOnce(c, bypass, s, v);
    PartsApart(c, bypass, v);
    assert Inputs(v)[|v.links| + i] == v.coefficients[i];
  }

  class Helper {
    const c: Config
    /** Whether a callback was handed in. */
    const hasCallback: bool
    var status: Statuses
    /** What the callback was called with. */
    var sent: seq<Notification>
    /** The temperatures each sensor's severity was computed from. */
    ghost var history: map<string, seq<real>>

    ghost predicate Valid()
      reads this
    {
      Acyclic(c) && status.Keys == c.sensors.Keys
    }

    ghost predicate Consistent()
      reads this
    {
      Valid() && Explained(c, status, history) && if hasCallback then Reported(c, status, sent) else sent == []
    }

    constructor (c: Config, hasCallback: bool)
      requires Acyclic(c)
      ensures this.c == c && this.hasCallback == hasCallback && Consistent() && sent == []
      ensures forall s :: s in status ==> status[s] == INITIAL_STATUS && history[s] == []
      ensures forall s :: s in status ==>
                && status[s].severity == 0 && status[s].prevHot == 0 && status[s].prevCold == 0
                && status[s].lastUpdate == None && status[s].cached == None
                && status[s].override == Override(None, false, false)
    {
      this.c, this.hasCallback := c, hasCallback;
      status := map s | s in c.sensors :: INITIAL_STATUS;
      sent := [];
      history := map s | s in c.sensors :: [];
    }

    method ReadDataByType(l: Link, w: World, now: int, forceNoCache: bool, ghost r: nat) returns (reading: Reading)
      requires Valid() && PowerKnown(c, w)
      requires l.name in c.sensors ==> l.name in c.rank && c.rank[l.name] < r
      requires l.kind.FromPower? ==> l.name in w.power
      modifies this`status
      ensures Valid() && ReadsOf(c, UpstreamOf(c, [l]), old(status), status, now, forceNoCache)
      ensures ReadsKept(c, w, old(status), status, now, forceNoCache)
      ensures LinkReadOnce(c, forceNoCache, l) ==> reading == Source(c, w, GivenTo(c, old(status), now, forceNoCache), l, r)
      decreases r + 1, 0, 0
    {
      hide Value, GivenTo, ReadOnce, ReadsOf, ReadsKept, UpstreamOf, Upstream, Acyclic, PowerKnown;
      UpstreamOfAppends(c, [], l);
      ReadsStart(c, w, status, now, forceNoCache);
      NothingRead(c, UpstreamOf(c, [l]), status, now, forceNoCache);
      match l.kind {
        case FromSensor =>
          reading := ReadThermalSensor(l.name, w, now, forceNoCache);
        case FromPower =>
          reading := if w.power[l.name].Some? then Got(w.power[l.name].value) else Missing;
        case FromConstant(value) =>
          reading := Got(value);
      }
    }

    /** The loop over the linked sensors; it stops at the first one without a value. */
    method ReadLinks(s: string, v: Virtual, w: World, now: int, forceNoCache: bool) returns (readings: Readings)
      requires Valid() && PowerKnown(c, w)
      requires s in c.sensors && c.sensors[s].virtual == Some(v) && s in c.rank
      modifies this`status
      ensures Valid() && ReadsOf(c, UpstreamOf(c, v.links), old(status), status, now, forceNoCache)
      ensures ReadsKept(c, w, old(status), status, now, forceNoCache)
      ensures readings.All? ==> |readings.values| == |v.links|
      ensures readings.Bad? ==> !readings.reading.Got?
      ensures ReadOnce(c, forceNoCache, s) ==>
                assert Ranked(c, s);
                readings == Sources(c, w, GivenTo(c, old(status), now, forceNoCache), v.links, c.rank[s], |v.links|)
      decreases c.rank[s] + 1, 0, 1
    {
      hide Value, Source, GivenTo, Acyclic, PowerKnown, Ranked, ReadsOf, ReadsKept, ReadOnce, LinkReadOnce, Apart, UpstreamOf,
           Inputs;
      LinksKnown(c, w, s, v);
      ghost var once, given, r := ReadOnce(c, forceNoCache, s), GivenTo(c, status, now, forceNoCache), c.rank[s];
      NothingRead(c, UpstreamOf(c, v.links[..0]), status, now, forceNoCache);
      ReadsStart(c, w, status, now, forceNoCache);
      var rs: seq<real> := [];
      for i := 0 to |v.links|
        invariant Valid() && ReadsOf(c, UpstreamOf(c, v.links[..i]), old(status), status, now, forceNoCache) && |rs| == i
        invariant ReadsKept(c, w, old(status), status, now, forceNoCache)
        invariant once ==> Sources(c, w, given, v.links, r, i) == All(rs)
      {
        ghost var before := status;
        if once {
          LinksReadOnce(c, forceNoCache, s, v, i);
          LinkKept(c, w, old(status), before, now, forceNoCache, v.links, i, i, r);
        }
        var x := ReadDataByType(v.links[i], w, now, forceNoCache, r);
        LinkRead(c, v.links, i, old(status), before, status, now, forceNoCache);
        ReadsKeptChain(c, w, old(status), before, status, now, forceNoCache);
        if !x.Got? {
          if once {
            BadStays(c, w, given, v.links, r, i + 1, |v.links|);
          }
          AllLinksRead(c, v.links, i + 1, old(status), status, now, forceNoCache);
          return Bad(x);
        }
        rs := rs + [x.value];
      }
      AllLinksRead(c, v.links, |v.links|, old(status), status, now, forceNoCache);
      readings := All(rs);
    }

    /** The branch of readThermalSensor that reads the linked sensors and applies the formula. */
    method ReadVirtual(s: string, v: Virtual, w: World, now: int, forceNoCache: bool) returns (reading: Reading)
      requires Valid() && PowerKnown(c, w)
      requires s in c.sensors && c.sensors[s].virtual == Some(v) && s in c.rank
      modifies this`status
      ensures Valid() && ReadsOf(c, UpstreamOf(c, Inputs(v)), old(status), status, now, forceNoCache)
      ensures ReadsKept(c, w, old(status), status, now, forceNoCache)
      ensures ReadOnce(c, forceNoCache, s) ==> reading == Raw(c, w, GivenTo(c, old(status), now, forceNoCache), s)
      decreases c.rank[s] + 1, 1, 0
    {
      hide Sources, Combined, GivenTo, ReadsOf, ReadsKept, ReadOnce, UpstreamOf, Inputs, Apart, LinkReadOnce;
      LinksKnown(c, w, s, v);
      var readings := ReadLinks(s, v, w, now, forceNoCache);
      InputsRead(c, v, old(status), status, status, now, forceNoCache);
      if readings.Bad? {
        return readings.reading;
      }
      ghost var before, r := status, c.rank[s];
      if ReadOnce(c, forceNoCache, s) {
        InputsReadOnce(c, forceNoCache, s, v);
        CoefficientsKept(c, w, old(status), before, now, forceNoCache, v, r, |v.coefficients|);
      }
      reading := ApplyFormula(s, v, readings.values, w, now, forceNoCache);
      InputsRead(c, v, old(status), before, status, now, forceNoCache);
      ReadsKeptChain(c, w, old(status), before, status, now, forceNoCache);
    }

    /** The loop over the coefficients. */
    method ApplyFormula(s: string, v: Virtual, rs: seq<real>, w: World, now: int, forceNoCache: bool) returns (reading: Reading)
      requires Valid() && PowerKnown(c, w)
      requires s in c.sensors && c.sensors[s].virtual == Some(v) && s in c.rank && |rs| == |v.links|
      modifies this`status
      ensures Valid() && ReadsOf(c, UpstreamOf(c, v.coefficients), old(status), status, now, forceNoCache)
      ensures ReadsKept(c, w, old(status), status, now, forceNoCache)
      ensures ReadOnce(c, forceNoCache, s) ==>
                assert Ranked(c, s);
                match Sources(c, w, GivenTo(c, old(status), now, forceNoCache), v.coefficients, c.rank[s], |v.coefficients|)
                case Bad(bad) => reading == bad
                case All(cs) => reading == Got(Combined(v.formula, rs, cs, |v.links|) + v.offset)
      decreases c.rank[s] + 1, 0, 1
    {
      hide Value, Source, GivenTo, Product, Accumulate, Acyclic, PowerKnown, Ranked, ReadsOf, ReadsKept, ReadOnce,
           LinkReadOnce, Apart, UpstreamOf, Inputs;
      LinksKnown(c, w, s, v);
      ghost var once, given, r := ReadOnce(c, forceNoCache, s), GivenTo(c, status, now, forceNoCache), c.rank[s];
      NothingRead(c, UpstreamOf(c, v.coefficients[..0]), status, now, forceNoCache);
      ReadsStart(c, w, status, now, forceNoCache);
      var tempVal := 0.0;
      ghost var cs: seq<real> := [];
      for i := 0 to |v.links|
        invariant Valid() && ReadsOf(c, UpstreamOf(c, v.coefficients[..i]), old(status), status, now, forceNoCache)
        invariant ReadsKept(c, w, old(status), status, now, forceNoCache) && |cs| == i
        invariant once ==> Sources(c, w, given, v.coefficients, r, i) == All(cs)
        invariant tempVal == Combined(v.formula, rs, cs, i)
      {
        ghost var before := status;
        if once {
          CoefficientsReadOnce(c, forceNoCache, s, v, i);
          LinkKept(c, w, old(status), before, now, forceNoCache, v.coefficients, i, i, r);
        }
        var x := ReadDataByType(v.coefficients[i], w, now, forceNoCache, r);
        LinkRead(c, v.coefficients, i, old(status), before, status, now, forceNoCache);
        ReadsKeptChain(c, w, old(status), before, status, now, forceNoCache);
        if !x.Got? {
          if once {
            BadStays(c, w, given, v.coefficients, r, i + 1, |v.coefficients|);
          }
          AllLinksRead(c, v.coefficients, i + 1, old(status), status, now, forceNoCache);
          return x;
        }
        CombinedIgnoresRest(v.formula, rs, cs, x.value, i);
        cs := cs + [x.value];
        tempVal := Accumulate(v.formula, tempVal, rs[i], x.value, i == 0);
      }
      AllLinksRead(c, v.coefficients, |v.coefficients|, old(status), status, now, forceNoCache);
      reading := Got(tempVal + v.offset);
    }

    /** A read gives the sensor's value over the link graph, with emulated temperatures and (unless bypassed)
        fresh samples given and recent ones blended in, whatever paths lead to a shared sub-sensor, if each
        sensor whose reading depends on how often it is read is read once. The samples it leaves behind change no
        reading of a plain sensor made at the same time. */
    method ReadThermalSensor(s: string, w: World, now: int, forceNoCache: bool) returns (reading: Reading)
      requires Valid() && PowerKnown(c, w) && (s in c.sensors ==> s in c.rank)
      modifies this`status
      ensures Valid() && ReadsOf(c, Upstream(c, s), old(status), status, now, forceNoCache)
      ensures ReadsKept(c, w, old(status), status, now, forceNoCache)
      ensures s !in c.sensors ==> reading == Failed && status == old(status)
      ensures s in c.sensors && ReadOnce(c, forceNoCache, s) ==>
                reading == Value(c, w, GivenTo(c, old(status), now, forceNoCache), s)
      ensures s in Emulated(old(status)) ==> reading == Got(Emulated(old(status))[s])
      ensures s in Pinned(c, old(status), now, forceNoCache) ==> status == old(status)
      ensures s in c.sensors && reading.Got? && s !in Pinned(c, old(status), now, forceNoCache) ==>
                status[s].cached == Some(Sample(reading.value, now))
      decreases if s in c.sensors then c.rank[s] + 1 else 0, 2, 0
    {
      hide Value, Raw, GivenTo, Pinned, Emulated, ReadsOf, Upstream, UpstreamOf, Inputs, ReadOnce, ReadsKept, Product, Stored,
           Acyclic, PowerKnown;
      ReadsStart(c, w, status, now, forceNoCache);
      NothingRead(c, Upstream(c, s), status, now, forceNoCache);
      if s !in c.sensors {
        UnknownIsNotTaken(c, status, s, now, forceNoCache);
        return Failed;
      }
      TakenAsIs(c, w, status, s, now, forceNoCache);
      if status[s].override.emulTemp.Some? {
        return Got(status[s].override.emulTemp.value);
      }
      if !forceNoCache && status[s].cached.Some? &&
         now - status[s].cached.value.timestamp < c.sensors[s].timeResolution {
        return Got(status[s].cached.value.temp);
      }
      var info := c.sensors[s];
      var sinceLastUpdate := if status[s].cached.Some? then now - status[s].cached.value.timestamp else 0;
      ComputedIs(c, w, status, s, now, forceNoCache);
      var temp: real;
      match info.virtual {
        case None =>
          PhysicalIs(c, w, GivenTo(c, status, now, forceNoCache), s);
          if s !in w.files {
            return Failed;
          }
          temp := w.files[s];
        case Some(v) =>
          var combined := ReadVirtual(s, v, w, now, forceNoCache);
          SensorRead(c, s, v, old(status), status, now, forceNoCache);
          if !combined.Got? {
            return combined;
          }
          temp := combined.value;
      }
      if info.stepRatio.Some? && status[s].cached.Some? && sinceLastUpdate < info.passiveDelay * TRAN_TIMEOUT_PARAM {
        temp := Product(info.stepRatio.value, temp) + Product(1.0 - info.stepRatio.value, status[s].cached.value.temp);
      }
      reading := Got(temp);
      Store(s, w, temp, now, forceNoCache, old(status));
    }

    /** Stores a sample; `before` is the state the read began in. */
    method Store(s: string, w: World, temp: real, now: int, forceNoCache: bool, ghost before: Statuses)
      requires Valid() && PowerKnown(c, w) && s in c.sensors && ReadsOf(c, Upstream(c, s), before, status, now, forceNoCache)
      requires ReadsKept(c, w, before, status, now, forceNoCache)
      requires s in before && before[s] == status[s] && !IsTaken(c, before, s, now, forceNoCache)
      requires ReadOnce(c, forceNoCache, s) ==> Value(c, w, GivenTo(c, before, now, forceNoCache), s) == Got(temp)
      modifies this`status
      ensures Valid() && ReadsOf(c, Upstream(c, s), before, status, now, forceNoCache)
      ensures status[s].cached == Some(Sample(temp, now))
      ensures ReadsKept(c, w, before, status, now, forceNoCache)
    {
      hide Value, GivenTo, Pinned, Emulated, ReadsOf, Upstream, Plain, ReadOnce, ReadsKept, Acyclic, PowerKnown;
      StoreIsRead(c, Upstream(c, s), before, status, s, temp, now, forceNoCache);
      UpstreamHasIt(c, s);
      assert Upstream(c, s) + {s} == Upstream(c, s);
      TakenAsIs(c, w, status, s, now, forceNoCache);
      PlainReading(c, w, before, status, s, temp, now, forceNoCache);
      StoreKeepsReads(c, w, status, s, temp, now, forceNoCache);
      ghost var read := status;
      status := Stored(status, s, temp, now);
      ReadsKeptChain(c, w, before, read, status, now, forceNoCache);
    }

    /** Marks, from the sensors that link to the target on, every watched virtual sensor it affects. */
    method CheckUpdateSensorForEmul(target: string, maxThrottling: bool)
      requires Valid() && target in c.sensors && target in c.rank
      modifies this`status
      ensures Valid() && MarkedFrom(c, target, maxThrottling, old(status), status)
      decreases c.top - c.rank[target]
    {
      hide Acyclic, Affected;
      var todo := c.sensors.Keys;
      ghost var done: set<string> := {};
      while todo != {}
        invariant Valid() && done + todo == c.sensors.Keys
        invariant MarkedWithin(c, target, maxThrottling, done, old(status), status)
        decreases |todo|
      {
        var s :| s in todo;
        todo := todo - {s};
        var info := c.sensors[s];
        if info.virtual.None? || !info.isWatch || !Links(info.virtual.value, target) {
          SkipKeepsMarks(c, target, maxThrottling, done, s, old(status), status);
        } else {
          ghost var before := status;
          FeedsRaisesRank(c, target, s);
          status := status[s := Marked(status[s], maxThrottling)];
          CheckUpdateSensorForEmul(s, maxThrottling);
          MarksGrow(c, target, maxThrottling, done, s, old(status), before, status);
        }
        done := done + {s};
      }
      assert done == c.sensors.Keys;
      AllDoneIsMarkedFrom(c, target, maxThrottling, old(status), status);
    }

    method EmulTemp(target: string, temp: real, maxThrottling: bool) returns (ok: bool)
      requires Valid()
      modifies this`status
      ensures Valid() && ok == (target in old(status))
      ensures !ok ==> status == old(status)
      ensures ok ==> Forced(c, target, Override(Some(temp), maxThrottling, true), old(status), status)
      ensures ok ==> Emulated(status) == Emulated(old(status))[target := temp]
      ensures old(Consistent()) ==> Consistent()
    {
      hide Affected, Emulated, Explained, Reported, Acyclic, Ranked, MarkedFrom, SameSeverities, WithOverride, Forced;
      if target !in status {
        return false;
      }
      var o := Override(Some(temp), maxThrottling, true);
      KnownIsRanked(c, target);
      OverrideEmulates(status, target, o);
      status := status[target := WithOverride(status[target], o)];
      ghost var before := status;
      CheckUpdateSensorForEmul(target, maxThrottling);
      MarksDoNotEmulate(c, target, maxThrottling, before, status);
      MarksForce(c, target, o, old(status), status);
      MarksKeepSeverities(c, target, maxThrottling, o, old(status), status);
      SameSeveritiesKeep(c, old(status), status, history, sent);
      return true;
    }

    /** Drops every emulated temperature, sensor by sensor. */
    method EmulClearAll()
      requires Valid()
      modifies this`status
      ensures Valid()
      ensures forall s :: s in status ==> status[s] == WithOverride(old(status)[s], CLEARED)
      ensures forall s :: s in status ==> status[s] == old(status)[s].(override := Override(None, false, true))
    {
      hide Affected, Acyclic, Ranked;
      var todo := status.Keys;
      while todo != {}
        invariant Valid() && todo <= status.Keys
        invariant forall s :: s in status && s in todo ==>
                                WithOverride(status[s], CLEARED) == WithOverride(old(status)[s], CLEARED)
        invariant forall s :: s in status && s !in todo ==> status[s] == WithOverride(old(status)[s], CLEARED)
        decreases |todo|
      {
        var s :| s in todo;
        todo := todo - {s};
        KnownIsRanked(c, s);
        status := status[s := WithOverride(status[s], CLEARED)];
        ghost var before := status;
        CheckUpdateSensorForEmul(s, false);
        forall x | x in status
          ensures WithOverride(status[x], CLEARED) == WithOverride(before[x], CLEARED)
          ensures before[x].override == CLEARED ==> status[x] == before[x]
        {
        }
      }
    }

    /** "all" drops every emulated temperature, a sensor's name that sensor's. */
    method EmulClear(target: string) returns (ok: bool)
      requires Valid()
      modifies this`status
      ensures Valid() && ok == (target == "all" || target in old(status))
      ensures !ok ==> status == old(status)
      ensures target == "all" ==>
                forall s :: s in status ==> status[s] == old(status)[s].(override := Override(None, false, true))
      ensures ok && target != "all" ==> Forced(c, target, Override(None, false, true), old(status), status)
      ensures ok ==> Emulated(status) == if target == "all" then map[] else Emulated(old(status)) - {target}
      ensures old(Consistent()) ==> Consistent()
    {
      hide Affected, Emulated, Explained, Reported, Acyclic, Ranked;
      if target == "all" {
        EmulClearAll();
        ClearedEmulateNothing(status);
      } else if target in status {
        KnownIsRanked(c, target);
        OverrideEmulates(status, target, CLEARED);
        status := status[target := WithOverride(status[target], CLEARED)];
        ghost var before := status;
        CheckUpdateSensorForEmul(target, false);
        MarksDoNotEmulate(c, target, false, before, status);
        MarksForce(c, target, CLEARED, old(status), status);
        MarksKeepSeverities(c, target, false, CLEARED, old(status), status);
      } else {
        return false;
      }
      SameSeveritiesKeep(c, old(status), status, history, sent);
      return true;
    }

    method ReadTemperature(s: string, w: World, now: int, forceNoCache: bool)
      returns (ok: bool, temp: Notification, hot: Severity, cold: Severity)
      requires Valid() && PowerKnown(c, w) && s in c.sensors
      modifies this`status
      ensures Valid() && OnlyCachesDiffer(old(status), status) && Stamped(old(status), status, now)
      ensures s in Emulated(old(status)) ==>
                ok && temp.value == Product(Emulated(old(status))[s], c.sensors[s].multiplier)
      ensures ReadsKept(c, w, old(status), status, now, forceNoCache)
      ensures ReadOnce(c, forceNoCache, s) ==>
                match Value(c, w, GivenTo(c, old(status), now, forceNoCache), s)
                case Got(x) => ok && temp.value == Product(x, c.sensors[s].multiplier)
                case _ => !ok
      ensures ok ==> temp.name == s && temp.severity == MaxSeverity(hot, cold)
      ensures ok ==> hot <= temp.severity && cold <= temp.severity && (temp.severity == hot || temp.severity == cold)
      ensures ok && c.sensors[s].isWatch ==>
                && hot == HotSeverity(c.sensors[s].hot, old(status)[s].prevHot, temp.value)
                && cold == ColdSeverity(c.sensors[s].cold, old(status)[s].prevCold, temp.value)
      ensures ok && !c.sensors[s].isWatch ==> hot == NONE && cold == NONE
    {
      assert Ranked(c, s);
      hide Value, GivenTo, Pinned, HotSeverity, ColdSeverity, Product, Emulated, Acyclic, PowerKnown, ReadsOf, ReadsKept,
           ReadOnce, Upstream, Stamped;
      ok, temp, hot, cold := false, Notification(s, 0.0, NONE), NONE, NONE;
      var reading := ReadThermalSensor(s, w, now, forceNoCache);
      ReadsOfAreCaches(c, Upstream(c, s), old(status), status, now, forceNoCache);
      assert SameButCache(old(status)[s], status[s]);
      if !reading.Got? {
        return;
      }
      var info := c.sensors[s];
      var value := Product(reading.value, info.multiplier);
      if info.isWatch {
        hot, cold := GetSeverityFromThresholds(info.hot, info.cold, status[s].prevHot, status[s].prevCold, value);
      }
      ok, temp := true, Notification(s, value, MaxSeverity(hot, cold));
    }

    /** Reads a due sensor and stores its new severities; the part of a watcher pass after the due test. */
    method Evaluate(s: string, w: World, now: int, forceNoCache: bool) returns (ok: bool, temp: Notification)
      requires Valid() && PowerKnown(c, w) && s in c.sensors && c.sensors[s].isWatch && Explained(c, status, history)
      modifies this`status, this`history
      ensures Valid() && Explained(c, status, history)
      ensures forall x :: x in status && x != s ==> SameButCache(old(status)[x], status[x]) && history[x] == old(history)[x]
      ensures s in Emulated(old(status)) ==>
                ok && temp.value == Product(Emulated(old(status))[s], c.sensors[s].multiplier)
      ensures ReadOnce(c, forceNoCache, s) ==>
                match Value(c, w, GivenTo(c, old(status), now, forceNoCache), s)
                case Got(x) => ok && temp.value == Product(x, c.sensors[s].multiplier)
                case _ => !ok
      ensures ReadsKept(c, w, old(status), status, now, forceNoCache) && Stamped(old(status), status, now)
      ensures if ok
              then && temp.name == s && temp.severity == status[s].severity
                   && history[s] == old(history)[s] + [temp.value]
                   && status[s].lastUpdate == Some(now) && status[s].override == old(status)[s].override
              else SameButCache(old(status)[s], status[s]) && history[s] == old(history)[s]
    {
      hide Value, GivenTo, HotSeverity, ColdSeverity, Product, Emulated, Acyclic, PowerKnown, ReadsKept, ReadOnce, Explained,
           Stamped, SameSeverities;
      ExplainedKeys(c, status, history);
      var hot, cold;
      ok, temp, hot, cold := ReadTemperature(s, w, now, forceNoCache);
      assert SameButCache(old(status)[s], status[s]);
      CachesKeepSeverities(old(status), status);
      SameSeveritiesKeep(c, old(status), status, history, sent);
      if ok {
        ghost var read := status;
        EvaluationIsExplained(c, status, history, s, hot, cold, temp.value, now);
        status := status[s := Evaluated(status[s], hot, cold, now)];
        history := history[s := history[s] + [temp.value]];
        EvaluationsAreNoSamples(old(status), read, s, status[s], now);
        GivenKept(c, read, s, status[s], now, forceNoCache);
        ReadsFollowGiven(c, w, old(status), read, status, now, forceNoCache);
      }
    }

    method TestDue(s: string, now: int, uevents: set<string>) returns (sleepMs: int, forceUpdate: bool, forceNoCache: bool)
      requires Valid() && TriggersKnown(c) && s in c.sensors
      ensures sleepMs == SleepOf(c.sensors[s], status, status[s])
      ensures forceUpdate == Due(c.sensors[s], status, s, status[s], now, uevents)
      ensures forceNoCache == Bypasses(c.sensors[s], s, status[s], uevents)
      ensures forceNoCache <==> c.sensors[s].virtual.None? && status[s].lastUpdate.Some? && s in uevents
    {
      var info := c.sensors[s];
      forceUpdate, forceNoCache := false, false;
      sleepMs := if status[s].severity != NONE then info.passiveDelay else info.pollingDelay;
      if info.virtual.Some? {
        var triggers := info.virtual.value.triggers;
        for i := 0 to |triggers|
          invariant status[s].severity == NONE ==> sleepMs == info.pollingDelay
          invariant status[s].severity != NONE ==> sleepMs == info.passiveDelay
          invariant forall j :: 0 <= j < i ==> status[triggers[j]].severity == NONE
        {
          if status[triggers[i]].severity != NONE {
            sleepMs := info.passiveDelay;
            break;
          }
        }
      }
      if status[s].lastUpdate.None? {
        forceUpdate := true;
      } else if uevents != {} {
        if info.virtual.Some? {
          var triggers := info.virtual.value.triggers;
          for i := 0 to |triggers|
            invariant !forceUpdate && forall j :: 0 <= j < i ==> triggers[j] !in uevents
          {
            if triggers[i] in uevents {
              forceUpdate := true;
              break;
            }
          }
        } else if s in uevents {
          forceUpdate, forceNoCache := true, true;
        }
      } else if now - status[s].lastUpdate.value > sleepMs {
        forceUpdate := true;
      }
    }

    /** Takes the mark of a sensor that has one. */
    method TakeMark(s: string, ghost w: World, ghost now: int, ghost bypass: bool) returns (marked: bool)
      requires Valid() && PowerKnown(c, w) && Explained(c, status, history) && s in c.sensors
      modifies this`status
      ensures Valid() && Explained(c, status, history) && marked == old(status)[s].override.pendingUpdate
      ensures status == old(status)[s := Taken(old(status)[s])]
      ensures ReadsKept(c, w, old(status), status, now, bypass)
    {
      hide Explained, GivenTo, ReadsKept, Acyclic, PowerKnown;
      marked := status[s].override.pendingUpdate;
      ReadsStart(c, w, status, now, bypass);
      TakingKeepsExplained(c, status, s, history);
      GivenKept(c, status, s, Taken(status[s]), now, bypass);
      if marked {
        status := status[s := Taken(status[s])];
      }
      assert status == old(status)[s := Taken(old(status)[s])];
      ReadsFollowGiven(c, w, old(status), old(status), status, now, bypass);
    }

    /** One turn of the watcher's loop, for a watched sensor; `updated` if it was read. */
    method Visit(s: string, w: World, now: int, uevents: set<string>)
      returns (vote: Option<int>, change: Option<Notification>, updated: bool, ghost tried: bool, ghost failed: bool)
      requires Valid() && PowerKnown(c, w) && TriggersKnown(c) && Explained(c, status, history)
      requires s in c.sensors && c.sensors[s].isWatch
      modifies this`status, this`history
      ensures Valid() && Explained(c, status, history)
      ensures forall x :: x in c.sensors && x != s ==> Untouched(old(status), status, old(history), history, x)
      ensures s in history && s in old(history) && Stamped(old(status), status, now)
      ensures Passed(c.sensors[s], now, old(status)[s], status[s], old(history)[s], history[s], tried, failed)
      ensures tried <==> old(status)[s].override.pendingUpdate ||
                         Due(c.sensors[s], old(status), s, old(status)[s], now, uevents)
      ensures updated <==> tried && !failed
      ensures
        var bypass := Bypasses(c.sensors[s], s, old(status)[s], uevents);
        && ReadsKept(c, w, old(status), status, now, bypass)
        && (tried && ReadOnce(c, bypass, s) ==>
              EvaluatedAt(c, w, GivenTo(c, old(status), now, bypass), old(history)[s], history[s], failed, s))
      ensures change.Some? <==> status[s].severity != old(status)[s].severity
      ensures change.Some? ==> change.value.name == s && change.value.severity == status[s].severity
      ensures change.Some? ==> history[s] != [] && change.value.value == history[s][|history[s]| - 1]
      ensures failed ==> tried
      ensures vote.None? <==> failed
      ensures vote.Some? ==> WakeAt(c.sensors[s], old(status)[s], status[s], Pressed(c.sensors[s], old(status))) ==
                             Some(now + vote.value)
    {
      hide Explained, Product, Emulated, Due, Acyclic, PowerKnown, TriggersKnown, GivenTo, ReadsKept, ReadOnce, Value, Pressed,
           Stamped;
      ExplainedKeys(c, status, history);
      var info := c.sensors[s];
      vote, change, updated := None, None, false;
      var sleepMs, forceUpdate, forceNoCache := TestDue(s, now, uevents);
      ghost var was := status[s];
      var pending := TakeMark(s, w, now, forceNoCache);
      GivenKept(c, old(status), s, status[s], now, forceNoCache);
      MarksAreNoSamples(old(status), s, now);
      if pending {
        forceUpdate := true;
      }
      tried, failed := forceUpdate, false;
      if !forceUpdate {
        NotDueWasUpdated(info, old(status), s, was, now, uevents);
        vote := Some(sleepMs - (now - status[s].lastUpdate.value));
        return;
      }
      EmulatedHere(status, s);
      var prevSeverity := status[s].severity;
      ghost var marked := status;
      var ok, temp := Evaluate(s, w, now, forceNoCache);
      ExplainedKeys(c, status, history);
      ReadsKeptChain(c, w, old(status), marked, status, now, forceNoCache);
      StampedChain(old(status), marked, status, now);
      if !ok {
        failed := true;
        return;
      }
      if temp.severity != prevSeverity {
        change := Some(temp);
        sleepMs := if status[s].severity != NONE then info.passiveDelay else info.pollingDelay;
      }
      vote, updated := Some(sleepMs), true;
    }

    /** Sends the collected changes, if there is a callback, for the sensors that ask for it. */
    method Deliver(temps: seq<Notification>, ghost before: Statuses)
      requires Valid() && Changes(before, status, temps) && (hasCallback ==> Reported(c, before, sent))
      modifies this`sent
      ensures hasCallback ==> Reported(c, status, sent)
      ensures sent == old(sent) + if hasCallback then Wanted(c, temps) else []
    {
      hide Changes, Reported, Delivered, Wanted, Acyclic;
      if hasCallback {
        NothingDelivered(c, before, status, sent, temps);
      }
      var k := 0;
      while k < |temps|
        invariant 0 <= k <= |temps|
        invariant hasCallback ==> Delivered(c, before, status, old(sent), sent, temps, k)
        invariant !hasCallback ==> sent == old(sent)
      {
        ChangesAreKnown(before, status, temps, k);
        if hasCallback {
          DeliverStep(c, before, status, old(sent), sent, temps, k);
        }
        if c.sensors[temps[k].name].sendCb && hasCallback {
          sent := sent + [temps[k]];
        }
        k := k + 1;
      }
      if hasCallback {
        AllDelivered(c, before, status, old(sent), sent, temps);
      }
    }

    /** A whole pass of the watcher. The first successful read is followed by a refresh of the rails: w is the world
        before, refreshed the world after it. `p` says what has become of each sensor, `changes` what there was to
        report. */
    method ThermalWatcherCallback(w: World, refreshed: World, now: int, uevents: set<string>)
      returns (sleep: Option<int>, ghost p: Progress, ghost changes: seq<Notification>)
      requires Consistent() && PowerKnown(c, w) && PowerKnown(c, refreshed) && TriggersKnown(c)
      modifies this
      ensures Consistent()
      ensures PassDone(c, w, refreshed, now, uevents, old(status), status, old(history), history, p, changes, sleep)
      ensures sent == old(sent) + if hasCallback then Wanted(c, changes) else []
    {
      hide Explained, Going, PassDone, Untouched, Passed, Changes, Reported, WakeAt, Acyclic, PowerKnown, Due, TriggersKnown,
           Sooner, Extended, EvaluatedAt, ReadsKept, GivenTo, ReadOnce, Bypasses, Pressed, Stamped, Wanted;
      ghost var st, h := status, history;
      var temps: seq<Notification> := [];
      sleep, p := None, Starting(status);
      ghost var all := c.sensors.Keys;
      var todo := status.Keys;
      var powerDataIsUpdated := false;
      Begins(c, w, refreshed, now, uevents, st, h);
      while todo != {}
        invariant Valid() && Explained(c, status, history) && sent == old(sent)
        invariant todo <= all && p.done == all - todo
        invariant Going(c, w, refreshed, now, uevents, st, status, h, history, p, powerDataIsUpdated, temps, sleep)
        decreases |todo|
      {
        var s :| s in todo;
        MoveOn(all, todo, s);
        todo := todo - {s};
        if c.sensors[s].isWatch {
          ghost var st1, h1 := status, history;
          var vote, change, updated, t, f := Visit(s, if powerDataIsUpdated then refreshed else w, now, uevents);
          GoesOn(c, w, refreshed, now, uevents, st, st1, status, h, h1, history, p, powerDataIsUpdated, temps, sleep,
                 s, t, f, vote, change);
          temps := Extended(temps, change);
          sleep := Sooner(sleep, vote);
          p := TurnTaken(p, s, t, f, Pressed(c.sensors[s], st1), powerDataIsUpdated, status);
          powerDataIsUpdated := powerDataIsUpdated || updated;
        } else {
          Skips(c, w, refreshed, now, uevents, st, status, h, history, p, powerDataIsUpdated, temps, sleep, s);
          p := p.(done := p.done + {s});
        }
      }
      assert p.done == all;
      Ends(c, w, refreshed, now, uevents, st, status, h, history, p, powerDataIsUpdated, temps, sleep);
      changes := temps;
      Deliver(temps, st);
    }
  }
}
