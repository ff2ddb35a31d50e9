/** When an emulated temperature arrives at the sensors computed from the target (thermal/thermal-helper.cpp:313-336,
    978-989): a mark forces a read, but the read still takes samples that are fresh. */
module EmulationArrival {
  import opened Options
  import opened SensorGraph
  import opened SensorStatuses

  /** Of the sensors s is computed from, and s itself, none that is computed from t has a fresh sample. */
  ghost predicate NothingStale(c: Config, st: Statuses, now: int, t: string, s: string)
    requires st.Keys == c.sensors.Keys
  {
    forall x :: x in Upstream(c, s) && Depends(c, t, x) ==> !IsFresh(c, st, x, now)
  }

  /** A fresh sample of a sensor that is not computed from t stays its value when t is emulated. */
  lemma SampleStaysRight(c: Config, w: World, st: Statuses, now: int, t: string, o: Override, x: string)
    requires Acyclic(c) && PowerKnown(c, w) && st.Keys == c.sensors.Keys && Coherent(c, w, st, now)
    requires t in st && o.emulTemp.Some? && x in st && x != t && !Depends(c, t, x)
    ensures
      var st' := st[t := WithOverride(st[t], o)];
      AddsOwnValue(c, w, GivenTo(c, st', now, true), GivenTo(c, st', now, false), x)
  {
    var st' := st[t := WithOverride(st[t], o)];
    GivenUnderEmulation(c, st, t, o, now);
    EmulationReachesDependentsOnly(c, w, GivenTo(c, st, now, true), t, o.emulTemp.value, x);
    GivenIs(c, st', x, now, true);
    GivenIs(c, st', x, now, false);
    EmulatedHere(st, x);
    hide Value, Depends, GivenTo, Acyclic, PowerKnown, Emulated;
  }

  /** A sensor without a fresh sample, or with an emulated temperature, reads the same through the cache and past it. */
  lemma NoSampleNoMatter(c: Config, w: World, st: Statuses, now: int, x: string)
    requires Acyclic(c) && PowerKnown(c, w) && st.Keys == c.sensors.Keys && x in st
    requires st[x].override.emulTemp.Some? || !IsFresh(c, st, x, now)
    ensures AddsOwnValue(c, w, GivenTo(c, st, now, true), GivenTo(c, st, now, false), x)
  {
    GivenIs(c, st, x, now, true);
    GivenIs(c, st, x, now, false);
    hide Value, GivenTo, Acyclic, PowerKnown;
  }

  /** An emulated temperature arrives at s: if the cache was coherent and no fresh sample lies between t and s, then
      after the emulation reading s through the cache is reading it past the cache. */
  lemma EmulationArrives(c: Config, w: World, st: Statuses, now: int, t: string, o: Override, s: string)
    requires Acyclic(c) && PowerKnown(c, w) && st.Keys == c.sensors.Keys && Coherent(c, w, st, now)
    requires t in st && o.emulTemp.Some? && s in st && NothingStale(c, st, now, t, s)
    ensures
      var st' := st[t := WithOverride(st[t], o)];
      Value(c, w, GivenTo(c, st', now, false), s) == Value(c, w, Emulating(GivenTo(c, st, now, true), t, o.emulTemp.value), s)
  {
    hide Value, Upstream, Depends, GivenTo, Acyclic, PowerKnown, Coherent, AddsOwnValue;
    var st' := st[t := WithOverride(st[t], o)];
    GivenUnderEmulation(c, st, t, o, now);
    var d := Upstream(c, s);
    UpstreamIsClosed(c, s);
    UpstreamHasIt(c, s);
    forall x | x in d && x in c.sensors
      ensures AddsOwnValue(c, w, GivenTo(c, st', now, true), GivenTo(c, st', now, false), x)
    {
      if x == t || Depends(c, t, x) {
        NoSampleNoMatter(c, w, st', now, x);
      } else {
        SampleStaysRight(c, w, st, now, t, o, x);
      }
    }
    AgreeAt(c, w, GivenTo(c, st', now, true), GivenTo(c, st', now, false), d, s);
  }

  // ---------- A sample that hides it ----------

  /** "skin" repeats "zone" and keeps a sample for 100 ms. */
  function Kept(): Config {
    var skin := Virtual([Link("zone", FromSensor)], [Link("1", FromConstant(1.0))], 0.0, [], WeightedAvg);
    Config(map["zone" := Watched(None), "skin" := Watched(Some(skin)).(timeResolution := 100)],
           map["zone" := 0, "skin" := 1], 1)
  }

  function At20(): World {
    World(map["zone" := 20.0], map[])
  }

  /** Skin was read at 20 degrees just now. */
  function Sampled(): Statuses {
    map["zone" := INITIAL_STATUS, "skin" := INITIAL_STATUS.(cached := Some(Sample(20.0, 0)))]
  }

  lemma KeptIsSound()
    ensures Acyclic(Kept()) && PowerKnown(Kept(), At20()) && Sampled().Keys == Kept().sensors.Keys == {"zone", "skin"}
  {
  }

  lemma SkinIsZone(g: Given, x: real)
    requires Acyclic(Kept()) && PowerKnown(Kept(), At20())
    requires "skin" !in g.taken && Value(Kept(), At20(), g, "zone") == Got(x)
    ensures Value(Kept(), At20(), g, "skin") == Got(x)
  {
    var c, w := Kept(), At20();
    var v := c.sensors["skin"].virtual.value;
    assert Sources(c, w, g, v.links, 1, 1) == All([x]);
    assert Sources(c, w, g, v.coefficients, 1, 1) == All([1.0]);
    assert Combined(WeightedAvg, [x], [1.0], 1) == x;
  }

  lemma SampledIsCoherent()
    requires Acyclic(Kept()) && PowerKnown(Kept(), At20()) && Sampled().Keys == Kept().sensors.Keys
    ensures Coherent(Kept(), At20(), Sampled(), 0)
  {
    var c, st := Kept(), Sampled();
    var g := GivenTo(c, st, 0, true);
    assert g.taken == map[];
    assert Value(c, At20(), g, "zone") == Got(20.0);
    SkinIsZone(g, 20.0);
    hide Value, GivenTo;
  }

  /** Skin was sampled at 20 degrees and is coherent; zone is emulated at 50. For 100 ms skin still reads 20 through the
      cache, where a read past it gives 50. */
  lemma FreshSampleHides()
    ensures Acyclic(Kept()) && PowerKnown(Kept(), At20()) && Sampled().Keys == Kept().sensors.Keys
    ensures Coherent(Kept(), At20(), Sampled(), 0)
    ensures
      var c, w, st := Kept(), At20(), Sampled();
      var st' := st["zone" := WithOverride(st["zone"], Override(Some(50.0), false, true))];
      && Value(c, w, GivenTo(c, st', 0, false), "skin") == Got(20.0)
      && Value(c, w, GivenTo(c, st', 0, true), "skin") == Got(50.0)
  {
    KeptIsSound();
    SampledIsCoherent();
    var c, w, st := Kept(), At20(), Sampled();
    var st' := st["zone" := WithOverride(st["zone"], Override(Some(50.0), false, true))];
    TakenAsIs(c, w, st', "skin", 0, false);
    TakenAsIs(c, w, st', "zone", 0, true);
    TakenAsIs(c, w, st', "skin", 0, true);
    SkinIsZone(GivenTo(c, st', 0, true), 50.0);
  }
}
