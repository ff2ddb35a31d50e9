/** Step ratios (thermal/thermal-helper.cpp:1074-1086): a smoothed sensor that keeps no fresh sample is blended with its
    last sample every time it is read, so the number of reads shows. */
module Smoothing {
  import opened Options
  import opened SensorGraph
  import opened SensorStatuses

  // ---------- What is read of a sensor ----------

  /** The sample that is kept for a sensor is less than `age` old. */
  predicate Younger(x: SensorStatus, now: int, age: int) {
    x.cached.Some? && now - x.cached.value.timestamp < age
  }

  function Mixed(r: real, x: real, was: real): real {
    r * x + (1.0 - r) * was
  }

  /** y is what a sensor with this status reads if it computes x: blended by its step ratio with a sample younger than
      twice its passive delay, otherwise as it is. */
  predicate BlendedTo(info: SensorInfo, st: SensorStatus, now: int, x: Reading, y: Reading) {
    if x.Got? && info.stepRatio.Some? && Younger(st, now, 2 * info.passiveDelay)
    then
      var r, was := info.stepRatio.value, st.cached.value.temp;
      y.Got? && y.value == Mixed(r, x.value, was)
    else y == x
  }

  /** A read gives the emulated temperature if there is one, unless it bypasses the cache a sample younger than the time
      resolution, and otherwise what the sensor computes, blended; a physical sensor computes what its file holds. */
  lemma ReadingLaw(c: Config, w: World, st: Statuses, s: string, now: int, bypass: bool)
    requires Acyclic(c) && PowerKnown(c, w) && st.Keys == c.sensors.Keys && s in st
    ensures
      var info, x, g := c.sensors[s], st[s], GivenTo(c, st, now, bypass);
      var reading := Value(c, w, g, s);
      if x.override.emulTemp.Some? then reading == Got(x.override.emulTemp.value)
      else if !bypass && Younger(x, now, info.timeResolution) then reading == Got(x.cached.value.temp)
      else BlendedTo(info, x, now, Raw(c, w, g, s), reading)
    ensures c.sensors[s].virtual.None? ==>
              Raw(c, w, GivenTo(c, st, now, bypass), s) == if s in w.files then Got(w.files[s]) else Failed
  {
    GivenIs(c, st, s, now, bypass);
    hide GivenTo, Sources;
  }

  /** For a ratio from 0 to 1 the blend lies between the last sample and what is computed, at the sample for 0 and at what
      is computed for 1. */
  lemma BlendBetween(info: SensorInfo, st: SensorStatus, now: int, x: real, y: Reading)
    requires info.stepRatio.Some? && 0.0 <= info.stepRatio.value <= 1.0 && Younger(st, now, 2 * info.passiveDelay)
    requires BlendedTo(info, st, now, Got(x), y)
    ensures
      var was := st.cached.value.temp;
      && y.Got? && (if was <= x then was <= y.value <= x else x <= y.value <= was)
      && (info.stepRatio.value == 0.0 ==> y.value == was) && (info.stepRatio.value == 1.0 ==> y.value == x)
  {
    hide Mixed;
    Blend(info.stepRatio.value, x, st.cached.value.temp);
  }

  lemma Blend(r: real, x: real, was: real)
    requires 0.0 <= r <= 1.0
    ensures
      var y := Mixed(r, x, was);
      && (if was <= x then was <= y <= x else x <= y <= was)
      && (r == 0.0 ==> y == was) && (r == 1.0 ==> y == x)
  {
    FromSample(r, x, was);
    Scales(r, x - was);
    hide Mixed;
  }

  lemma FromSample(r: real, x: real, was: real)
    ensures Mixed(r, x, was) == was + r * (x - was)
  {
    assert (1.0 - r) * was == was - r * was;
  }

  lemma Scales(r: real, d: real)
    requires 0.0 <= r <= 1.0
    ensures if d >= 0.0 then 0.0 <= r * d <= d else d <= r * d <= 0.0
  {
  }

  // ---------- Two reads ----------

  /** "zone" is smoothed by a half and keeps no sample; "skin" adds it to itself. */
  function Doubled(): Config {
    var skin := Virtual([Link("zone", FromSensor), Link("zone", FromSensor)],
                        [Link("1", FromConstant(1.0)), Link("1", FromConstant(1.0))], 0.0, [], WeightedAvg);
    Config(map["zone" := Watched(None).(stepRatio := Some(0.5)), "skin" := Watched(Some(skin))],
           map["zone" := 0, "skin" := 1], 1)
  }

  function At16(): World {
    World(map["zone" := 16.0], map[])
  }

  /** Zone was last read at 0 degrees. */
  function Cold(): Statuses {
    map["zone" := INITIAL_STATUS.(cached := Some(Sample(0.0, 0))), "skin" := INITIAL_STATUS]
  }

  lemma DoubledIsSound()
    ensures Acyclic(Doubled()) && PowerKnown(Doubled(), At16()) && Cold().Keys == Doubled().sensors.Keys == {"zone", "skin"}
  {
  }

  /** Zone reads half its file and half its last sample. */
  lemma ZoneReads(st: Statuses, x: real)
    requires Acyclic(Doubled()) && PowerKnown(Doubled(), At16()) && st.Keys == Doubled().sensors.Keys
    requires "zone" in st && st["zone"].override.emulTemp.None? && st["zone"].cached == Some(Sample(x, 0))
    ensures Value(Doubled(), At16(), GivenTo(Doubled(), st, 0, false), "zone") == Got(8.0 + 0.5 * x)
  {
    GivenIs(Doubled(), st, "zone", 0, false);
    hide GivenTo;
  }

  lemma SkinReads(g: Given, x: real)
    requires Acyclic(Doubled()) && PowerKnown(Doubled(), At16()) && "skin" !in g.taken
    requires Value(Doubled(), At16(), g, "zone") == Got(x)
    ensures Value(Doubled(), At16(), g, "skin") == Got(x + x)
  {
    var c, w := Doubled(), At16();
    var v := c.sensors["skin"].virtual.value;
    assert Sources(c, w, g, v.links, 1, 1) == All([x]);
    assert Sources(c, w, g, v.links, 1, 2) == All([x, x]);
    assert Sources(c, w, g, v.coefficients, 1, 1) == All([1.0]);
    assert Sources(c, w, g, v.coefficients, 1, 2) == All([1.0, 1.0]);
    assert Combined(WeightedAvg, [x, x], [1.0, 1.0], 1) == x;
    assert Combined(WeightedAvg, [x, x], [1.0, 1.0], 2) == x + x;
  }

  /** Two ways lead from zone to skin, and zone reads 8 the first time and 12 the second: the sum of the two reads is 20,
      where the value of skin over the graph is 16. */
  lemma SecondReadDiffers()
    ensures Acyclic(Doubled()) && PowerKnown(Doubled(), At16()) && !ReadOnce(Doubled(), false, "skin")
    ensures
      var c, w, st := Doubled(), At16(), Cold();
      && Value(c, w, GivenTo(c, st, 0, false), "skin") == Got(16.0)
      && Value(c, w, GivenTo(c, st, 0, false), "zone") == Got(8.0)
      && Value(c, w, GivenTo(c, Stored(st, "zone", 8.0, 0), 0, false), "zone") == Got(12.0)
  {
    hide Value, GivenTo, Doubled, At16, Acyclic, PowerKnown, ReadOnce;
    DoubledIsSound();
    ReadsInTurn();
    NotApart();
  }

  lemma ReadsInTurn()
    requires Acyclic(Doubled()) && PowerKnown(Doubled(), At16())
    ensures
      var c, w, st := Doubled(), At16(), Cold();
      && Value(c, w, GivenTo(c, st, 0, false), "skin") == Got(16.0)
      && Value(c, w, GivenTo(c, st, 0, false), "zone") == Got(8.0)
      && Value(c, w, GivenTo(c, Stored(st, "zone", 8.0, 0), 0, false), "zone") == Got(12.0)
  {
    hide Value, GivenTo, Acyclic, PowerKnown;
    var c, st := Doubled(), Cold();
    ZoneReads(st, 0.0);
    ZoneReads(Stored(st, "zone", 8.0, 0), 8.0);
    GivenIs(c, st, "skin", 0, false);
    SkinReads(GivenTo(c, st, 0, false), 8.0);
  }

  lemma NotApart()
    requires Acyclic(Doubled())
    ensures !ReadOnce(Doubled(), false, "skin")
  {
    hide Depends;
    var c := Doubled();
    var links := Inputs(c.sensors["skin"].virtual.value);
    assert links[0].name == links[1].name == "zone" && Known(c, links[0]) && Known(c, links[1]);
    UpstreamHasIt(c, "zone");
    UpstreamHasIt(c, "skin");
    assert Shared(c, links, 0, 1, "zone");
    assert !InputsApart(c, false, "skin");
  }
}
