/** Whether the sensors that emulating a temperature marks for an update (thermal/thermal-helper.cpp:291-311) are
    all the watched sensors it changes. The marking follows links through watched virtual sensors; readings
    also go through coefficients and through virtual sensors that are not watched. */
module EmulationReach {
  import opened Options
  import opened SensorGraph

  predicate Resolve(c: Config, links: seq<Link>) {
    forall i :: 0 <= i < |links| && links[i].kind.FromSensor? ==> links[i].name in c.sensors
  }

  /** Every sensor that is read from exists. */
  predicate LinksResolve(c: Config) {
    forall s :: s in c.sensors && c.sensors[s].virtual.Some? ==>
                  Resolve(c, c.sensors[s].virtual.value.links) && Resolve(c, c.sensors[s].virtual.value.coefficients)
  }

  ghost predicate Unmarked(c: Config, t: string, s: string) {
    s in c.sensors && c.sensors[s].isWatch && s != t && !Affected(c, t, s)
  }

  /** In every world and whatever is given, emulating t leaves the temperature of every unmarked watched sensor alone. */
  ghost predicate UnmarkedKeep(c: Config, t: string)
    requires Acyclic(c)
  {
    forall w: World, g: Given, v: real, s: string :: PowerKnown(c, w) && Unmarked(c, t, s) ==>
      Value(c, w, g, s) == Value(c, w, Emulating(g, t, v), s)
  }

  /** Every watched sensor computed from t is reached through links of watched virtual sensors alone. */
  ghost predicate MarksCover(c: Config, t: string) {
    forall s :: s in c.sensors && c.sensors[s].isWatch && s != t && Depends(c, t, s) ==> Affected(c, t, s)
  }

  lemma CoverKeeps(c: Config, t: string)
    requires Acyclic(c) && MarksCover(c, t)
    ensures UnmarkedKeep(c, t)
  {
    hide Affected, Depends, Value;
    forall w: World, g: Given, v: real, s: string | PowerKnown(c, w) && Unmarked(c, t, s)
      ensures Value(c, w, g, s) == Value(c, w, Emulating(g, t, v), s)
    {
      EmulationReachesDependentsOnly(c, w, g, t, v, s);
    }
  }

  // ---------- A world in which a dependence shows ----------

  function RailNames(links: seq<Link>): set<string> {
    set i | 0 <= i < |links| && links[i].kind.FromPower? :: links[i].name
  }

  function Rails(c: Config): set<string> {
    set s, x | s in c.sensors && c.sensors[s].virtual.Some? &&
               x in RailNames(c.sensors[s].virtual.value.links) + RailNames(c.sensors[s].virtual.value.coefficients) :: x
  }

  /** No thermal file can be read, all rails are known. */
  function Dark(c: Config): World {
    World(map[], map x | x in Rails(c) :: Some(0.0))
  }

  predicate RailsGot(links: seq<Link>, w: World) {
    forall i :: 0 <= i < |links| && links[i].kind.FromPower? ==> links[i].name in w.power && w.power[links[i].name].Some?
  }

  lemma DarkKnows(c: Config)
    ensures PowerKnown(c, Dark(c))
    ensures forall s :: s in c.sensors && c.sensors[s].virtual.Some? ==>
              RailsGot(c.sensors[s].virtual.value.links, Dark(c)) && RailsGot(c.sensors[s].virtual.value.coefficients, Dark(c))
  {
    forall s | s in c.sensors && c.sensors[s].virtual.Some?
      ensures RailsGot(c.sensors[s].virtual.value.links, Dark(c)) && RailsGot(c.sensors[s].virtual.value.coefficients, Dark(c))
    {
      var v := c.sensors[s].virtual.value;
      forall i | 0 <= i < |v.links| && v.links[i].kind.FromPower?
        ensures v.links[i].name in Dark(c).power
      {
        assert v.links[i].name in RailNames(v.links) + RailNames(v.coefficients);
        assert v.links[i].name in Rails(c);
      }
      forall i | 0 <= i < |v.coefficients| && v.coefficients[i].kind.FromPower?
        ensures v.coefficients[i].name in Dark(c).power
      {
        assert v.coefficients[i].name in RailNames(v.links) + RailNames(v.coefficients);
        assert v.coefficients[i].name in Rails(c);
      }
    }
  }

  /** Every sensor off the chain is emulated. */
  function OffChain(c: Config, p: seq<string>): Given {
    Given(map x | x in c.sensors && x !in p :: 0.0, map[])
  }

  lemma BadLink(c: Config, w: World, g: Given, links: seq<Link>, r: nat, k: nat)
    requires Acyclic(c) && PowerKnown(c, w) && RanksBelow(c, links, r) && RailsKnown(links, w) && k < |links|
    requires !Source(c, w, g, links[k], r).Got?
    ensures Sources(c, w, g, links, r, |links|).Bad?
  {
    hide Source;
    assert Sources(c, w, g, links, r, k + 1).Bad?;
    BadStays(c, w, g, links, r, k + 1, |links|);
  }

  /** A sensor that reads from one without a value has none. */
  lemma FailsOn(c: Config, w: World, g: Given, x: string, s: string)
    requires Acyclic(c) && PowerKnown(c, w) && Reads(c, x, s) && s !in g.taken && !Value(c, w, g, x).Got?
    ensures !Value(c, w, g, s).Got?
  {
    assert Ranked(c, s);
    var v := c.sensors[s].virtual.value;
    if ReadsFrom(v.links, x) {
      var k :| 0 <= k < |v.links| && v.links[k].kind.FromSensor? && v.links[k].name == x;
      BadLink(c, w, g, v.links, c.rank[s], k);
    } else {
      var k :| 0 <= k < |v.coefficients| && v.coefficients[k].kind.FromSensor? && v.coefficients[k].name == x;
      BadLink(c, w, g, v.coefficients, c.rank[s], k);
    }
  }

  lemma {:induction false} ChainFails(c: Config, p: seq<string>, i: nat)
    requires Acyclic(c) && PowerKnown(c, Dark(c)) && ReadChain(c, p) && i < |p|
    requires p[0] in c.sensors && c.sensors[p[0]].virtual.None?
    ensures p[i] in c.sensors && !Value(c, Dark(c), OffChain(c, p), p[i]).Got?
  {
    assert Reads(c, p[0], p[0 + 1]);
    if i > 0 {
      hide Value;
      ChainFails(c, p, i - 1);
      assert Reads(c, p[i - 1], p[i - 1 + 1]);
      FailsOn(c, Dark(c), OffChain(c, p), p[i - 1], p[i]);
    }
  }

  lemma {:induction false} LinksGet(c: Config, p: seq<string>, v: real, links: seq<Link>, r: nat, n: nat)
    requires Acyclic(c) && LinksResolve(c) && PowerKnown(c, Dark(c)) && ReadChain(c, p)
    requires RanksBelow(c, links, r) && RailsKnown(links, Dark(c)) && Resolve(c, links) && RailsGot(links, Dark(c)) && n <= |links|
    ensures Sources(c, Dark(c), Emulating(OffChain(c, p), p[0], v), links, r, n).All?
    decreases r, 0, n
  {
    hide LinksResolve;
    if n > 0 {
      LinksGet(c, p, v, links, r, n - 1);
      if links[n - 1].kind.FromSensor? {
        SensorGets(c, p, v, links[n - 1].name);
      }
    }
  }

  /** With the start of the chain emulated every sensor has a value. */
  lemma {:induction false} SensorGets(c: Config, p: seq<string>, v: real, x: string)
    requires Acyclic(c) && LinksResolve(c) && PowerKnown(c, Dark(c)) && ReadChain(c, p) && x in c.sensors
    ensures Value(c, Dark(c), Emulating(OffChain(c, p), p[0], v), x).Got?
    decreases if x in c.rank then c.rank[x] else 0, 1, 0
  {
    hide Combined, LinksResolve;
    assert Ranked(c, x);
    if x in p && x != p[0] {
      var j :| 0 <= j < |p| && p[j] == x;
      assert Reads(c, p[j - 1], p[j - 1 + 1]);
      var info := c.sensors[x].virtual.value;
      ResolveAt(c, x);
      DarkKnows(c);
      LinksGet(c, p, v, info.links, c.rank[x], |info.links|);
      LinksGet(c, p, v, info.coefficients, c.rank[x], |info.coefficients|);
    }
  }

  lemma ResolveAt(c: Config, s: string)
    requires LinksResolve(c) && s in c.sensors && c.sensors[s].virtual.Some?
    ensures Resolve(c, c.sensors[s].virtual.value.links) && Resolve(c, c.sensors[s].virtual.value.coefficients)
  {
  }

  /** A dependence on a physical sensor always shows: in some world the dependent reads differently under emulation. */
  lemma DependenceShows(c: Config, t: string, s: string)
    requires Acyclic(c) && LinksResolve(c) && t in c.sensors && c.sensors[t].virtual.None? && Depends(c, t, s)
    ensures s in c.sensors && PowerKnown(c, Dark(c)) && exists g: Given ::
              Value(c, Dark(c), g, s) != Value(c, Dark(c), Emulating(g, t, 0.0), s)
  {
    hide Value;
    var p :| ReadChain(c, p) && p[0] == t && p[|p| - 1] == s;
    DarkKnows(c);
    ChainFails(c, p, |p| - 1);
    SensorGets(c, p, 0.0, s);
    var g := OffChain(c, p);
    assert Value(c, Dark(c), g, s) != Value(c, Dark(c), Emulating(g, t, 0.0), s);
  }

  /** Emulating a physical sensor never changes an unmarked watched sensor if and only if every watched sensor
      computed from it is so through links of watched virtual sensors: no dependence passes through a sensor
      coefficient or an unwatched virtual sensor alone. */
  lemma MarkLaw(c: Config, t: string)
    requires Acyclic(c) && LinksResolve(c) && t in c.sensors && c.sensors[t].virtual.None?
    ensures UnmarkedKeep(c, t) <==> MarksCover(c, t)
  {
    hide Value, Affected, Depends;
    if MarksCover(c, t) {
      CoverKeeps(c, t);
    } else {
      var s :| s in c.sensors && c.sensors[s].isWatch && s != t && Depends(c, t, s) && !Affected(c, t, s);
      DependenceShows(c, t, s);
      var g: Given :| Value(c, Dark(c), g, s) != Value(c, Dark(c), Emulating(g, t, 0.0), s);
      assert Unmarked(c, t, s);
    }
  }

  // ---------- A configuration in which it fails ----------

  /** "skin" scales a constant by what "gain" reads. */
  function Scaled(): Config {
    var skin := Virtual([Link("1", FromConstant(1.0))], [Link("gain", FromSensor)], 0.0, [], WeightedAvg);
    Config(map["gain" := Watched(None), "skin" := Watched(Some(skin))], map["gain" := 0, "skin" := 1], 1)
  }

  lemma ScaledIsSound()
    ensures
      var c := Scaled();
      && Acyclic(c) && LinksResolve(c) && "gain" in c.sensors && c.sensors["gain"].virtual.None?
      && "skin" in c.sensors && c.sensors["skin"].isWatch
  {
  }

  lemma SkinDepends()
    ensures Depends(Scaled(), "gain", "skin")
  {
    var c := Scaled();
    var coefficients := c.sensors["skin"].virtual.value.coefficients;
    assert coefficients[0].kind.FromSensor? && coefficients[0].name == "gain";
    assert ReadsFrom(coefficients, "gain");
    var p := ["gain", "skin"];
    assert Reads(c, p[0], p[1]);
    assert ReadChain(c, p) && p[0] == "gain" && p[|p| - 1] == "skin";
  }

  lemma SkinIsNotFed()
    ensures !Affected(Scaled(), "gain", "skin")
  {
    var c := Scaled();
    if Affected(c, "gain", "skin") {
      var d := AffectedIsFedBy(c, "gain", "skin");
    }
  }

  /** A sensor that reads the target as a coefficient is changed by its emulation and never marked. */
  lemma CoefficientIsNotMarked()
    ensures Acyclic(Scaled()) && !MarksCover(Scaled(), "gain") && !UnmarkedKeep(Scaled(), "gain")
  {
    hide Scaled, Depends, Affected, UnmarkedKeep, Acyclic, LinksResolve;
    ScaledIsSound();
    SkinDepends();
    SkinIsNotFed();
    assert "skin" != "gain";
    MarkLaw(Scaled(), "gain");
  }

  // ---------- A virtual target that does not show ----------

  /** "copy" repeats "zone", and "skin" adds nothing times the copy to the zone. */
  function Cancelled(): Config {
    var copy := Virtual([Link("zone", FromSensor)], [Link("1", FromConstant(1.0))], 0.0, [], WeightedAvg);
    var skin := Virtual([Link("zone", FromSensor), Link("0", FromConstant(0.0))],
                        [Link("1", FromConstant(1.0)), Link("copy", FromSensor)], 0.0, [], WeightedAvg);
    Config(map["zone" := Watched(None), "copy" := Watched(Some(copy)), "skin" := Watched(Some(skin))],
           map["zone" := 0, "copy" := 1, "skin" := 2], 2)
  }

  lemma CancelledIsSound()
    ensures
      var c := Cancelled();
      && Acyclic(c) && LinksResolve(c) && c.sensors.Keys == {"zone", "copy", "skin"}
      && c.sensors["skin"].isWatch && "skin" != "copy"
  {
  }

  lemma CancelledDepends()
    ensures Depends(Cancelled(), "copy", "skin") && !Affected(Cancelled(), "copy", "skin")
  {
    var c := Cancelled();
    var coefficients := c.sensors["skin"].virtual.value.coefficients;
    assert coefficients[1].kind.FromSensor? && coefficients[1].name == "copy";
    assert ReadsFrom(coefficients, "copy");
    var p := ["copy", "skin"];
    assert Reads(c, p[0], p[1]);
    assert ReadChain(c, p) && p[0] == "copy" && p[|p| - 1] == "skin";
    if Affected(c, "copy", "skin") {
      var d := AffectedIsFedBy(c, "copy", "skin");
    }
  }

  lemma CopyFollowsZone(w: World, g: Given)
    requires Acyclic(Cancelled()) && PowerKnown(Cancelled(), w)
    ensures Value(Cancelled(), w, g, "zone").Got? ==> Value(Cancelled(), w, g, "copy").Got?
  {
    var c := Cancelled();
    var v := c.sensors["copy"].virtual.value;
    assert Sources(c, w, g, v.links, 1, 1).All? <==> Value(c, w, g, "zone").Got?;
    assert Sources(c, w, g, v.coefficients, 1, 1).All?;
  }

  lemma SkinSources(w: World, g: Given)
    requires Acyclic(Cancelled()) && PowerKnown(Cancelled(), w)
    ensures
      var c := Cancelled();
      var v := c.sensors["skin"].virtual.value;
      var zone := Value(c, w, g, "zone");
      if zone.Got?
      then && Value(c, w, g, "copy").Got?
           && Sources(c, w, g, v.links, 2, 2) == All([zone.value, 0.0])
           && Sources(c, w, g, v.coefficients, 2, 2) == All([1.0, Value(c, w, g, "copy").value])
      else Sources(c, w, g, v.links, 2, 2) == Bad(zone)
  {
    hide Raw, Acyclic;
    var c := Cancelled();
    var v := c.sensors["skin"].virtual.value;
    CopyFollowsZone(w, g);
    var zone := Value(c, w, g, "zone");
    if zone.Got? {
      assert Sources(c, w, g, v.links, 2, 1) == All([zone.value]);
      assert Sources(c, w, g, v.coefficients, 2, 1) == All([1.0]);
    } else {
      assert Sources(c, w, g, v.links, 2, 1) == Bad(zone);
    }
  }

  lemma NothingAdded(x: real, y: real)
    ensures Combined(WeightedAvg, [x, 0.0], [1.0, y], 2) == x
  {
    assert Combined(WeightedAvg, [x, 0.0], [1.0, y], 1) == x;
  }

  lemma SkinFollowsZone(w: World, g: Given)
    requires Acyclic(Cancelled()) && PowerKnown(Cancelled(), w) && "skin" !in g.taken
    ensures Value(Cancelled(), w, g, "skin") == Value(Cancelled(), w, g, "zone")
  {
    hide Combined, Sources, Acyclic;
    var c := Cancelled();
    SkinSources(w, g);
    if Value(c, w, g, "zone").Got? {
      NothingAdded(Value(c, w, g, "zone").value, Value(c, w, g, "copy").value);
    }
  }

  lemma CancelledKeeps(w: World, g: Given, v: real, s: string)
    requires Acyclic(Cancelled()) && PowerKnown(Cancelled(), w) && s in {"zone", "skin"}
    ensures s in Cancelled().sensors && Value(Cancelled(), w, g, s) == Value(Cancelled(), w, Emulating(g, "copy", v), s)
  {
    assert Value(Cancelled(), w, g, "zone") == Value(Cancelled(), w, Emulating(g, "copy", v), "zone");
    if s == "skin" && "skin" !in g.taken {
      SkinFollowsZone(w, g);
      SkinFollowsZone(w, Emulating(g, "copy", v));
    }
  }

  /** For a virtual target the marks need not cover what depends on it: whatever "copy" is emulated at, "skin" keeps
      its temperature, in every world. */
  lemma VirtualTargetMayNotShow()
    ensures Acyclic(Cancelled()) && LinksResolve(Cancelled())
    ensures !MarksCover(Cancelled(), "copy") && UnmarkedKeep(Cancelled(), "copy")
  {
    hide Cancelled, Depends, Affected, Value, LinksResolve, Acyclic;
    var c := Cancelled();
    CancelledIsSound();
    CancelledDepends();
    forall w: World, g: Given, v: real, s: string | PowerKnown(c, w) && Unmarked(c, "copy", s)
      ensures Value(c, w, g, s) == Value(c, w, Emulating(g, "copy", v), s)
    {
      CancelledKeeps(w, g, v, s);
    }
  }
}
