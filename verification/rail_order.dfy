/** The refresh of the rails in the middle of a watcher pass (thermal/thermal-helper.cpp:1215-1218) makes the order in
    which the pass meets the sensors visible. */
module RailOrder {
  import opened Options
  import opened SensorGraph
  import opened SensorStatuses
  import opened WatcherPass
  import opened ThermalHelper

  /** A sensor that shows the power of a rail. */
  function Meter(): SensorInfo {
    Watched(Some(Virtual([Link("rail", FromPower)], [Link("1", FromConstant(1.0))], 0.0, [], WeightedAvg)))
  }

  function Meters(): Config {
    Config(map["a" := Meter(), "b" := Meter()], map["a" := 0, "b" := 0], 0)
  }

  function Drawing(power: real): World {
    World(map[], map["rail" := Some(power)])
  }

  lemma MetersAreSound(power: real)
    ensures Acyclic(Meters()) && PowerKnown(Meters(), Drawing(power)) && TriggersKnown(Meters())
    ensures Meters().sensors.Keys == {"a", "b"}
  {
  }

  lemma MetersArePlain(s: string)
    requires s in Meters().sensors
    ensures s in PlainSet(Meters(), false)
  {
    UnsmoothedIsPlain(Meters(), false, s);
  }

  /** A meter that is not given a temperature reads the power. */
  lemma MeterReads(power: real, g: Given, s: string)
    requires s in Meters().sensors && s !in g.taken && Acyclic(Meters()) && PowerKnown(Meters(), Drawing(power))
    ensures Value(Meters(), Drawing(power), g, s) == Got(power)
  {
    var c, w := Meters(), Drawing(power);
    var v := c.sensors[s].virtual.value;
    assert Sources(c, w, g, v.links, 0, 1) == All([power]);
    assert Sources(c, w, g, v.coefficients, 0, 1) == All([1.0]);
    assert Combined(WeightedAvg, [power], [1.0], 1) == power;
  }

  /** No meter is emulated or holds a sample from the future. */
  predicate Unheld(st: Statuses, now: int) {
    && st.Keys == Meters().sensors.Keys
    && forall s :: s in st ==>
                     && st[s].override.emulTemp.None?
                     && (st[s].cached.Some? ==> st[s].cached.value.timestamp <= now)
  }

  lemma UnheldStays(a: Statuses, b: Statuses, now: int)
    requires Unheld(a, now) && Stamped(a, b, now)
    ensures Unheld(b, now)
  {
  }

  /** So every meter is read. */
  lemma UnheldIsRead(st: Statuses, now: int, s: string)
    requires Unheld(st, now) && s in Meters().sensors
    ensures s !in GivenTo(Meters(), st, now, false).taken
  {
    GivenIs(Meters(), st, s, now, false);
  }

  lemma MeterEvaluated(power: real, st: Statuses, now: int, s: string, ha: seq<real>, hb: seq<real>, failed: bool)
    requires Unheld(st, now) && s in Meters().sensors && Acyclic(Meters()) && PowerKnown(Meters(), Drawing(power))
    requires EvaluatedAt(Meters(), Drawing(power), GivenTo(Meters(), st, now, false), ha, hb, failed, s)
    ensures !failed && hb == ha + [power]
  {
    UnheldIsRead(st, now, s);
    MeterReads(power, GivenTo(Meters(), st, now, false), s);
    hide Value;
    assert Product(power, Meters().sensors[s].multiplier) == power;
  }

  /** In a pass over two meters on a rail whose power goes from 1 to 2 at the refresh, no read fails, and each meter is
      evaluated at 1 if its turn comes before the refresh and at 2 if it comes later. */
  lemma PowerByTurn(now: int, a: Statuses, mid: Statuses, b: Statuses, ha: map<string, seq<real>>, hb: map<string, seq<real>>,
                    early: set<string>, failed: set<string>, s: string)
    requires Acyclic(Meters()) && PowerKnown(Meters(), Drawing(1.0)) && PowerKnown(Meters(), Drawing(2.0))
    requires Unheld(a, now) && s in Meters().sensors
    requires Phases(Meters(), Drawing(1.0), Drawing(2.0), now, a, mid, b, ha, hb, Meters().sensors.Keys, early, failed)
    ensures s !in failed && s in ha && s in hb && hb[s] == ha[s] + [if s in early then 1.0 else 2.0]
  {
    hide Meters, Drawing, GivenTo, EvaluatedAt, PlainSet, ReadsKept, Acyclic, PowerKnown, Unheld;
    UnheldStays(a, mid, now);
    MetersArePlain(s);
    if s in early {
      MeterEvaluated(1.0, a, now, s, ha[s], hb[s], s in failed);
    } else {
      assert s in Meters().sensors.Keys - early;
      MeterEvaluated(2.0, mid, now, s, ha[s], hb[s], s in failed);
    }
  }

  /** So the order shows: whichever meter comes first is evaluated at 1 and the other one at 2. */
  lemma OrderShows(now: int, a: Statuses, mid: Statuses, b: Statuses, ha: map<string, seq<real>>, hb: map<string, seq<real>>,
                   failed: set<string>, first: string, second: string)
    requires Acyclic(Meters()) && PowerKnown(Meters(), Drawing(1.0)) && PowerKnown(Meters(), Drawing(2.0)) && Unheld(a, now)
    requires Phases(Meters(), Drawing(1.0), Drawing(2.0), now, a, mid, b, ha, hb, Meters().sensors.Keys, {first}, failed)
    requires first != second && {first, second} == Meters().sensors.Keys
    ensures first in ha && first in hb && hb[first] == ha[first] + [1.0]
    ensures second in ha && second in hb && hb[second] == ha[second] + [2.0]
  {
    hide Meters, Drawing, Phases, Acyclic, PowerKnown, Unheld;
    assert first in {first, second} && second in {first, second};
    PowerByTurn(now, a, mid, b, ha, hb, {first}, failed, first);
    PowerByTurn(now, a, mid, b, ha, hb, {first}, failed, second);
  }

  lemma AllMetersTried(st: Statuses, now: int, tried: set<string>, pressed: set<string>)
    requires st.Keys == Meters().sensors.Keys && forall s :: s in st ==> st[s] == INITIAL_STATUS
    requires Chosen(Meters(), st, now, {}, tried, st.Keys, pressed)
    ensures tried == Meters().sensors.Keys
  {
    forall s | s in st
      ensures s in tried
    {
      assert CallsForRead(Meters().sensors[s], s, st[s], now, {}, s in pressed);
    }
  }

  lemma OneIsFirst(a: Statuses, mid: Statuses, b: Statuses, ha: map<string, seq<real>>, hb: map<string, seq<real>>,
                   tried: set<string>, early: set<string>, failed: set<string>)
    returns (first: string, second: string)
    requires Acyclic(Meters()) && PowerKnown(Meters(), Drawing(1.0)) && PowerKnown(Meters(), Drawing(2.0))
    requires a.Keys == Meters().sensors.Keys && forall s :: s in a ==> a[s] == INITIAL_STATUS && s in ha && ha[s] == []
    requires tried == Meters().sensors.Keys && exists done: bool :: RefreshedOnce(tried, early, failed, done)
    requires Phases(Meters(), Drawing(1.0), Drawing(2.0), 0, a, mid, b, ha, hb, tried, early, failed)
    ensures first != second && {first, second} == Meters().sensors.Keys
    ensures first in hb && hb[first] == [1.0] && second in hb && hb[second] == [2.0]
  {
    assert Unheld(a, 0);
    MetersAreSound(1.0);
    hide Meters, Drawing, Phases, Acyclic, PowerKnown, Unheld;
    PowerByTurn(0, a, mid, b, ha, hb, early, failed, "a");
    PowerByTurn(0, a, mid, b, ha, hb, early, failed, "b");
    assert "a" in tried && "b" in tried;
    if "a" in early {
      first, second := "a", "b";
    } else {
      first, second := "b", "a";
    }
    assert [] + [1.0] == [1.0] && [] + [2.0] == [2.0];
  }

  /** A first pass of a helper over the meters, in which this happens. */
  method FirstPass() returns (helper: Helper, ghost first: string, ghost second: string)
    ensures first != second && {first, second} == Meters().sensors.Keys
    ensures first in helper.history && helper.history[first] == [1.0]
    ensures second in helper.history && helper.history[second] == [2.0]
  {
    hide Phases, Chosen, VotesCast, PassSoFar, PressedSoFar, AllEvaluated, Explained, Acyclic, PowerKnown, Meters, Drawing,
         Changes, Carried;
    MetersAreSound(1.0);
    MetersAreSound(2.0);
    helper := new Helper(Meters(), false);
    ghost var st := helper.status;
    ghost var h := helper.history;
    ExplainedKeys(Meters(), st, h);
    var sleep;
    ghost var p, changes;
    sleep, p, changes := helper.ThermalWatcherCallback(Drawing(1.0), Drawing(2.0), 0, {});
    AllMetersTried(st, 0, p.tried, p.pressed);
    first, second := OneIsFirst(st, p.mid, helper.status, h, helper.history, p.tried, p.early, p.failed);
  }
}
