/** What the thermal daemon remembers of each sensor, and the relations its operations keep. */
module SensorStatuses {
  import opened Options
  import opened Severities
  import opened SensorGraph
  import opened Notifications

  datatype Sample = Sample(temp: real, timestamp: int)

  datatype Override = Override(emulTemp: Option<real>, maxThrottling: bool, pendingUpdate: bool)

  /** `cached` and `lastUpdate` are None where the source holds NaN and time_point::min. */
  datatype SensorStatus = SensorStatus(
    severity: Severity, prevHot: Severity, prevCold: Severity,
    lastUpdate: Option<int>, cached: Option<Sample>, override: Override)

  type Statuses = map<string, SensorStatus>

  const INITIAL_STATUS := SensorStatus(NONE, NONE, NONE, None, None, Override(None, false, false))

  // ---------- Reading ----------

  function Emulated(st: Statuses): map<string, real> {
    map s | s in st && st[s].override.emulTemp.Some? :: st[s].override.emulTemp.value
  }

  /** Two statuses that differ at most in the cached sample. */
  predicate SameButCache(a: SensorStatus, b: SensorStatus) {
    a.(cached := None) == b.(cached := None)
  }

  ghost predicate OnlyCachesDiffer(old_: Statuses, new_: Statuses) {
    old_.Keys == new_.Keys && forall s :: s in old_ ==> SameButCache(old_[s], new_[s])
  }

  predicate IsFresh(c: Config, st: Statuses, s: string, now: int)
    requires s in c.sensors && s in st
  {
    st[s].cached.Some? && now - st[s].cached.value.timestamp < c.sensors[s].timeResolution
  }

  const TRAN_TIMEOUT_PARAM := 2

  function FreshSamples(c: Config, st: Statuses, now: int): map<string, real> {
    map s | s in st && s in c.sensors && IsFresh(c, st, s, now) :: st[s].cached.value.temp
  }

  /** What a read takes as it is: emulated temperatures and, unless bypassed, fresh cached samples. */
  function Pinned(c: Config, st: Statuses, now: int, bypass: bool): map<string, real> {
    if bypass then Emulated(st) else FreshSamples(c, st, now) + Emulated(st)
  }

  predicate IsRecent(c: Config, st: Statuses, s: string, now: int)
    requires s in c.sensors && s in st
  {
    st[s].cached.Some? && now - st[s].cached.value.timestamp < c.sensors[s].passiveDelay * TRAN_TIMEOUT_PARAM
  }

  /** The samples recent enough to be blended in. */
  function RecentSamples(c: Config, st: Statuses, now: int): map<string, real> {
    map s | s in st && s in c.sensors && IsRecent(c, st, s, now) :: st[s].cached.value.temp
  }

  function GivenTo(c: Config, st: Statuses, now: int, bypass: bool): Given {
    Given(Pinned(c, st, now, bypass), RecentSamples(c, st, now))
  }

  /** A read of s takes what is there and looks no further. */
  predicate IsTaken(c: Config, st: Statuses, s: string, now: int, bypass: bool)
    requires s in c.sensors && s in st
  {
    st[s].override.emulTemp.Some? || (!bypass && IsFresh(c, st, s, now))
  }

  predicate SampledAt(x: SensorStatus, now: int) {
    x.cached.Some? && x.cached.value.timestamp == now
  }

  /** From a to b sensors in d were read: only their caches have changed, of those that were not taken as they are,
      and each change is a sample of now. */
  ghost predicate ReadsOf(c: Config, d: set<string>, a: Statuses, b: Statuses, now: int, bypass: bool) {
    && a.Keys == b.Keys == c.sensors.Keys
    && forall s :: s in a ==>
                     && SameButCache(a[s], b[s])
                     && (a[s] != b[s] ==> s in d && !IsTaken(c, a, s, now, bypass) && SampledAt(b[s], now))
  }

  lemma ReadsOfAreCaches(c: Config, d: set<string>, a: Statuses, b: Statuses, now: int, bypass: bool)
    requires ReadsOf(c, d, a, b, now, bypass)
    ensures OnlyCachesDiffer(a, b) && Stamped(a, b, now)
  {
    forall s | s in a
      ensures a[s].override.emulTemp == b[s].override.emulTemp
    {
      assert SameButCache(a[s], b[s]);
    }
  }

  lemma NothingRead(c: Config, d: set<string>, a: Statuses, now: int, bypass: bool)
    requires a.Keys == c.sensors.Keys
    ensures ReadsOf(c, d, a, a, now, bypass)
  {
  }

  lemma ReadsOfChain(c: Config, d: set<string>, d': set<string>, a: Statuses, b: Statuses, e: Statuses, now: int, bypass: bool)
    requires ReadsOf(c, d, a, b, now, bypass) && ReadsOf(c, d', b, e, now, bypass)
    ensures ReadsOf(c, d + d', a, e, now, bypass)
  {
    forall s | s in a
      ensures SameButCache(a[s], e[s])
      ensures a[s] != e[s] ==> s in d + d' && !IsTaken(c, a, s, now, bypass) && SampledAt(e[s], now)
    {
      assert SameButCache(a[s], b[s]) && SameButCache(b[s], e[s]);
    }
  }

  lemma ReadsOfMore(c: Config, d: set<string>, d': set<string>, a: Statuses, b: Statuses, now: int, bypass: bool)
    requires ReadsOf(c, d, a, b, now, bypass) && d <= d'
    ensures ReadsOf(c, d', a, b, now, bypass)
  {
  }

  /** Every cached sample that has changed is of now, and the same temperatures are emulated. */
  ghost predicate Stamped(a: Statuses, b: Statuses, now: int) {
    && a.Keys == b.Keys
    && forall s :: s in a ==>
                     && a[s].override.emulTemp == b[s].override.emulTemp
                     && (a[s].cached == b[s].cached || SampledAt(b[s], now))
  }

  lemma StampedChain(a: Statuses, b: Statuses, d: Statuses, now: int)
    requires Stamped(a, b, now) && Stamped(b, d, now)
    ensures Stamped(a, d, now)
  {
  }

  // ---------- Sensors whose reading does not depend on how often they are read ----------

  /** Without a step ratio, or with one and a sample that a second read takes from the cache. */
  predicate Steady(info: SensorInfo, bypass: bool) {
    info.stepRatio.None? || (!bypass && info.timeResolution > 0)
  }

  /** s and everything it is computed from is steady. */
  ghost predicate Plain(c: Config, bypass: bool, s: string) {
    forall x :: x in Upstream(c, s) ==> Steady(c.sensors[x], bypass)
  }

  /** Sensor x is computed into link i and into link j. */
  ghost predicate Shared(c: Config, links: seq<Link>, i: nat, j: nat, x: string) {
    && i < j < |links| && Known(c, links[i]) && Known(c, links[j])
    && x in Upstream(c, links[i].name) && x in Upstream(c, links[j].name)
  }

  /** No sensor that is not steady is computed into two of the links. */
  ghost predicate Apart(c: Config, bypass: bool, links: seq<Link>) {
    forall i: nat, j: nat, x :: Shared(c, links, i, j, x) ==> Steady(c.sensors[x], bypass)
  }

  ghost predicate InputsApart(c: Config, bypass: bool, s: string) {
    s in c.sensors && c.sensors[s].virtual.Some? ==> Apart(c, bypass, Inputs(c.sensors[s].virtual.value))
  }

  /** Every sensor that is not steady is computed into s in one way only: nowhere on the way do two inputs of one
      sensor lead to it. */
  ghost predicate ReadOnce(c: Config, bypass: bool, s: string) {
    forall x :: x in Upstream(c, s) ==> InputsApart(c, bypass, x)
  }

  ghost predicate LinkReadOnce(c: Config, bypass: bool, l: Link) {
    Known(c, l) ==> ReadOnce(c, bypass, l.name)
  }

  lemma PlainStays(c: Config, bypass: bool, s: string, x: string)
    requires Plain(c, bypass, s) && x in Upstream(c, s)
    ensures Plain(c, bypass, x)
  {
    hide Upstream;
    UpstreamIsClosed(c, s);
    UpstreamStays(c, Upstream(c, s), x);
  }

  /** Where everything is steady nothing else matters. */
  lemma PlainIsReadOnce(c: Config, bypass: bool, s: string)
    requires Plain(c, bypass, s)
    ensures ReadOnce(c, bypass, s)
  {
    hide Upstream, Inputs;
    UpstreamIsClosed(c, s);
    forall x | x in Upstream(c, s)
      ensures InputsApart(c, bypass, x)
    {
      UpstreamStays(c, Upstream(c, s), x);
      if x in c.sensors && c.sensors[x].virtual.Some? {
        PlainInputs(c, bypass, s, x);
      }
    }
  }

  lemma PlainInputs(c: Config, bypass: bool, s: string, x: string)
    requires Plain(c, bypass, s) && x in c.sensors && c.sensors[x].virtual.Some? && Upstream(c, x) <= Upstream(c, s)
    ensures Apart(c, bypass, Inputs(c.sensors[x].virtual.value))
  {
    hide Upstream, Inputs;
    var links := Inputs(c.sensors[x].virtual.value);
    UpstreamOfInputs(c, x);
    forall i: nat, j: nat, y | Shared(c, links, i, j, y)
      ensures Steady(c.sensors[y], bypass)
    {
      assert y in UpstreamOf(c, links);
    }
  }

  lemma InputsReadOnce(c: Config, bypass: bool, s: string, v: Virtual)
    requires s in c.sensors && c.sensors[s].virtual == Some(v) && ReadOnce(c, bypass, s)
    ensures Apart(c, bypass, Inputs(v)) && forall l :: l in Inputs(v) ==> LinkReadOnce(c, bypass, l)
  {
    hide Inputs, Depends;
    assert s in Upstream(c, s) && InputsApart(c, bypass, s);
    hide Upstream;
    UpstreamIsClosed(c, s);
    forall l | l in Inputs(v) && Known(c, l)
      ensures ReadOnce(c, bypass, l.name)
    {
      InputIsUpstream(c, s, l);
      UpstreamStays(c, Upstream(c, s), l.name);
    }
  }

  /** With no step ratio in the configuration every sensor is plain. */
  lemma UnsmoothedIsPlain(c: Config, bypass: bool, s: string)
    requires s in c.sensors && forall x :: x in c.sensors ==> c.sensors[x].stepRatio.None?
    ensures Plain(c, bypass, s)
  {
  }

  ghost function PlainSet(c: Config, bypass: bool): set<string> {
    set s | s in c.sensors && Plain(c, bypass, s)
  }

  lemma PlainIsClosed(c: Config, bypass: bool)
    ensures Closed(c, PlainSet(c, bypass))
  {
    hide Plain, Depends;
    forall x, s | s in PlainSet(c, bypass) && Reads(c, x, s)
      ensures x in PlainSet(c, bypass)
    {
      DependsPrepends(c, x, s, s);
      PlainStays(c, bypass, s, x);
    }
  }

  lemma PlainIsSteady(c: Config, bypass: bool, s: string)
    requires s in c.sensors && Plain(c, bypass, s)
    ensures Steady(c.sensors[s], bypass)
  {
    assert s in Upstream(c, s);
  }

  // ---------- Readings that stay ----------

  ghost predicate ReadAlike(c: Config, w: World, bypass: bool, g: Given, h: Given)
    requires Acyclic(c) && PowerKnown(c, w)
  {
    forall s :: s in PlainSet(c, bypass) ==> Value(c, w, g, s) == Value(c, w, h, s)
  }

  /** From a to b no reading has changed. */
  ghost predicate ReadsKept(c: Config, w: World, a: Statuses, b: Statuses, now: int, bypass: bool)
    requires Acyclic(c) && PowerKnown(c, w)
  {
    ReadAlike(c, w, bypass, GivenTo(c, a, now, bypass), GivenTo(c, b, now, bypass))
  }

  function Stored(st: Statuses, s: string, temp: real, now: int): Statuses
    requires s in st
  {
    st[s := st[s].(cached := Some(Sample(temp, now)))]
  }

  lemma EmulatedAfterStore(st: Statuses, s: string, temp: real, now: int)
    requires s in st
    ensures Emulated(Stored(st, s, temp, now)) == Emulated(st)
  {
  }

  lemma FreshAfterStore(c: Config, st: Statuses, s: string, temp: real, now: int)
    requires s in st && s in c.sensors && !IsFresh(c, st, s, now)
    ensures s !in FreshSamples(c, st, now)
    ensures FreshSamples(c, Stored(st, s, temp, now), now) ==
            if c.sensors[s].timeResolution <= 0 then FreshSamples(c, st, now) else FreshSamples(c, st, now)[s := temp]
  {
  }

  lemma PinnedAfterStore(c: Config, st: Statuses, s: string, temp: real, now: int, bypass: bool)
    requires s in st && s in c.sensors && s !in Emulated(st) && (!bypass ==> !IsFresh(c, st, s, now))
    ensures
      var st' := Stored(st, s, temp, now);
      && s !in Pinned(c, st, now, bypass)
      && Pinned(c, st', now, bypass) ==
         if bypass || c.sensors[s].timeResolution <= 0 then Pinned(c, st, now, bypass)
         else Pinned(c, st, now, bypass)[s := temp]
  {
    hide Emulated, FreshSamples, Stored;
    EmulatedAfterStore(st, s, temp, now);
    if !bypass {
      FreshAfterStore(c, st, s, temp, now);
    }
  }

  lemma StoredElsewhere(c: Config, w: World, st: Statuses, s: string, temp: real, now: int, bypass: bool, x: string)
    requires Acyclic(c) && PowerKnown(c, w) && s in st && s in c.sensors && x in c.sensors && x != s
    requires s !in Emulated(st) && (!bypass ==> !IsFresh(c, st, s, now))
    ensures AddsOwnValue(c, w, GivenTo(c, st, now, bypass), GivenTo(c, Stored(st, s, temp, now), now, bypass), x)
  {
    hide Value, Acyclic, PowerKnown, Pinned, Emulated, RecentSamples, IsFresh, Stored;
    PinnedAfterStore(c, st, s, temp, now, bypass);
    RecentElsewhere(c, st, s, temp, now, x);
  }

  lemma StoredHere(c: Config, w: World, st: Statuses, s: string, temp: real, now: int, bypass: bool)
    requires Acyclic(c) && PowerKnown(c, w) && s in st && s in c.sensors && Steady(c.sensors[s], bypass)
    requires s !in Emulated(st) && (!bypass ==> !IsFresh(c, st, s, now))
    requires Value(c, w, GivenTo(c, st, now, bypass), s) == Got(temp)
    ensures AddsOwnValue(c, w, GivenTo(c, st, now, bypass), GivenTo(c, Stored(st, s, temp, now), now, bypass), s)
  {
    hide Value, Acyclic, PowerKnown, Pinned, Emulated, RecentSamples, IsFresh, Stored;
    PinnedAfterStore(c, st, s, temp, now, bypass);
  }

  /** Storing what a sensor reads as its sample changes no reading of a plain sensor. */
  lemma StoreKeepsReads(c: Config, w: World, st: Statuses, s: string, temp: real, now: int, bypass: bool)
    requires Acyclic(c) && PowerKnown(c, w) && s in st && s in c.sensors
    requires s !in Emulated(st) && (!bypass ==> !IsFresh(c, st, s, now))
    requires Plain(c, bypass, s) ==> Value(c, w, GivenTo(c, st, now, bypass), s) == Got(temp)
    ensures ReadsKept(c, w, st, Stored(st, s, temp, now), now, bypass)
  {
    hide Value, Acyclic, PowerKnown, GivenTo, Emulated, Plain, Closed, AddsOwnValue, Stored;
    var g, h, d := GivenTo(c, st, now, bypass), GivenTo(c, Stored(st, s, temp, now), now, bypass), PlainSet(c, bypass);
    PlainIsClosed(c, bypass);
    forall x | x in d && x in c.sensors
      ensures AddsOwnValue(c, w, g, h, x)
    {
      if x == s {
        PlainIsSteady(c, bypass, s);
        StoredHere(c, w, st, s, temp, now, bypass);
      } else {
        StoredElsewhere(c, w, st, s, temp, now, bypass, x);
      }
    }
    OwnValuesAddNothing(c, w, g, h, d);
  }

  lemma RecentElsewhere(c: Config, st: Statuses, s: string, temp: real, now: int, x: string)
    requires s in st && x != s
    ensures
      var a, b := RecentSamples(c, st, now), RecentSamples(c, Stored(st, s, temp, now), now);
      (x in a <==> x in b) && (x in a ==> a[x] == b[x])
  {
  }

  lemma ReadsStart(c: Config, w: World, a: Statuses, now: int, bypass: bool)
    requires Acyclic(c) && PowerKnown(c, w)
    ensures ReadsKept(c, w, a, a, now, bypass)
  {
  }

  lemma ReadsKeptChain(c: Config, w: World, a: Statuses, b: Statuses, d: Statuses, now: int, bypass: bool)
    requires Acyclic(c) && PowerKnown(c, w) && ReadsKept(c, w, a, b, now, bypass) && ReadsKept(c, w, b, d, now, bypass)
    ensures ReadsKept(c, w, a, d, now, bypass)
  {
    hide Value, GivenTo, PlainSet;
  }

  lemma TakenAsIs(c: Config, w: World, st: Statuses, s: string, now: int, bypass: bool)
    requires Acyclic(c) && PowerKnown(c, w) && s in c.sensors && s in st
    ensures s in Emulated(st) <==> st[s].override.emulTemp.Some?
    ensures s in Pinned(c, st, now, bypass) <==> st[s].override.emulTemp.Some? || (!bypass && IsFresh(c, st, s, now))
    ensures st[s].override.emulTemp.Some? ==>
              && Emulated(st)[s] == st[s].override.emulTemp.value
              && Value(c, w, GivenTo(c, st, now, bypass), s) == Got(st[s].override.emulTemp.value)
    ensures st[s].override.emulTemp.None? && !bypass && IsFresh(c, st, s, now) ==>
              Value(c, w, GivenTo(c, st, now, bypass), s) == Got(st[s].cached.value.temp)
  {
    hide Raw;
  }

  lemma UnknownIsNotTaken(c: Config, st: Statuses, s: string, now: int, bypass: bool)
    requires st.Keys == c.sensors.Keys && s !in c.sensors
    ensures s !in Emulated(st) && s !in Pinned(c, st, now, bypass)
  {
  }

  /** What is read of a sensor that is neither emulated nor fresh. */
  function Blended(c: Config, st: Statuses, s: string, raw: real, now: int): real
    requires s in c.sensors && s in st
  {
    if c.sensors[s].stepRatio.Some? && IsRecent(c, st, s, now)
    then Product(c.sensors[s].stepRatio.value, raw) + Product(1.0 - c.sensors[s].stepRatio.value, st[s].cached.value.temp)
    else raw
  }

  lemma ComputedIs(c: Config, w: World, st: Statuses, s: string, now: int, bypass: bool)
    requires Acyclic(c) && PowerKnown(c, w) && s in c.sensors && s in st && s !in Pinned(c, st, now, bypass)
    ensures
      var g := GivenTo(c, st, now, bypass);
      Value(c, w, g, s) == match Raw(c, w, g, s) case Got(raw) => Got(Blended(c, st, s, raw, now)) case other => other
  {
    hide Raw, Product;
  }

  lemma PhysicalIs(c: Config, w: World, g: Given, s: string)
    requires Acyclic(c) && PowerKnown(c, w) && s in c.sensors && c.sensors[s].virtual.None?
    ensures Raw(c, w, g, s) == if s in w.files then Got(w.files[s]) else Failed
  {
  }

  lemma StoreIsRead(c: Config, d: set<string>, a: Statuses, b: Statuses, s: string, temp: real, now: int, bypass: bool)
    requires ReadsOf(c, d, a, b, now, bypass) && s in a && !IsTaken(c, a, s, now, bypass)
    ensures ReadsOf(c, d + {s}, a, Stored(b, s, temp, now), now, bypass) && Stored(b, s, temp, now).Keys == b.Keys
  {
    forall x | x in a
      ensures
        var x' := Stored(b, s, temp, now)[x];
        SameButCache(a[x], x') && (a[x] != x' ==> x in d + {s} && !IsTaken(c, a, x, now, bypass) && SampledAt(x', now))
    {
      assert SameButCache(a[x], b[x]);
    }
  }

  /** What a plain sensor read at the start is still its value when its sample is stored. */
  lemma PlainReading(c: Config, w: World, a: Statuses, b: Statuses, s: string, temp: real, now: int, bypass: bool)
    requires Acyclic(c) && PowerKnown(c, w) && s in c.sensors && ReadsKept(c, w, a, b, now, bypass)
    requires ReadOnce(c, bypass, s) ==> Value(c, w, GivenTo(c, a, now, bypass), s) == Got(temp)
    ensures Plain(c, bypass, s) ==> Value(c, w, GivenTo(c, b, now, bypass), s) == Got(temp)
  {
    hide Value, GivenTo, Plain, ReadOnce;
    if Plain(c, bypass, s) {
      PlainIsReadOnce(c, bypass, s);
      assert s in PlainSet(c, bypass);
    }
  }

  lemma ReadsFollowGiven(c: Config, w: World, a: Statuses, b: Statuses, d: Statuses, now: int, bypass: bool)
    requires Acyclic(c) && PowerKnown(c, w) && ReadsKept(c, w, a, b, now, bypass)
    requires GivenTo(c, b, now, bypass) == GivenTo(c, d, now, bypass)
    ensures ReadsKept(c, w, a, d, now, bypass)
  {
    hide Value, GivenTo, PlainSet;
  }

  lemma GivenIs(c: Config, st: Statuses, s: string, now: int, bypass: bool)
    requires st.Keys == c.sensors.Keys && s in st
    ensures
      var g, x := GivenTo(c, st, now, bypass), st[s];
      && (s in g.taken <==> IsTaken(c, st, s, now, bypass))
      && (s in g.taken ==> g.taken[s] == if x.override.emulTemp.Some? then x.override.emulTemp.value else x.cached.value.temp)
      && (s in g.blended <==> IsRecent(c, st, s, now))
      && (s in g.blended ==> g.blended[s] == x.cached.value.temp)
  {
  }

  /** Reading a plain sensor in between adds at most its own value. */
  lemma ReadInBetween(c: Config, w: World, a: Statuses, b: Statuses, now: int, bypass: bool, d: set<string>, s: string)
    requires Acyclic(c) && PowerKnown(c, w) && ReadsOf(c, d, a, b, now, bypass) && ReadsKept(c, w, a, b, now, bypass)
    requires s in c.sensors && (s in d ==> Plain(c, bypass, s))
    ensures AddsOwnValue(c, w, GivenTo(c, a, now, bypass), GivenTo(c, b, now, bypass), s)
  {
    var g, h := GivenTo(c, a, now, bypass), GivenTo(c, b, now, bypass);
    assert SameButCache(a[s], b[s]);
    GivenIs(c, a, s, now, bypass);
    GivenIs(c, b, s, now, bypass);
    if a[s] != b[s] {
      PlainIsSteady(c, bypass, s);
      assert s in PlainSet(c, bypass);
      assert Value(c, w, g, s) == Value(c, w, h, s);
      hide Raw, GivenTo, Plain, Acyclic, PowerKnown, ReadsOf, ReadsKept;
    } else {
      hide Value, GivenTo, Plain, Acyclic, PowerKnown, ReadsOf, ReadsKept;
    }
  }

  /** A sensor that is computed into two of several links that are apart is plain. */
  lemma SharedIsPlain(c: Config, bypass: bool, links: seq<Link>, i: nat, j: nat, s: string)
    requires Apart(c, bypass, links) && Shared(c, links, i, j, s)
    ensures Plain(c, bypass, s)
  {
    hide Upstream;
    UpstreamIsClosed(c, links[i].name);
    UpstreamIsClosed(c, links[j].name);
    UpstreamStays(c, Upstream(c, links[i].name), s);
    UpstreamStays(c, Upstream(c, links[j].name), s);
    forall x | x in Upstream(c, s)
      ensures Steady(c.sensors[x], bypass)
    {
      assert Shared(c, links, i, j, x);
    }
  }

  /** Having read the first k of several links that are apart does not show in a later one. */
  lemma LinkKept(c: Config, w: World, a: Statuses, b: Statuses, now: int, bypass: bool, links: seq<Link>, k: nat, j: nat, r: nat)
    requires Acyclic(c) && PowerKnown(c, w) && Apart(c, bypass, links) && k <= j < |links|
    requires ReadsOf(c, UpstreamOf(c, links[..k]), a, b, now, bypass) && ReadsKept(c, w, a, b, now, bypass)
    requires links[j].name in c.sensors ==> links[j].name in c.rank && c.rank[links[j].name] < r
    requires links[j].kind.FromPower? ==> links[j].name in w.power
    ensures Source(c, w, GivenTo(c, a, now, bypass), links[j], r) == Source(c, w, GivenTo(c, b, now, bypass), links[j], r)
  {
    hide Value, Upstream, GivenTo, Apart, ReadsOf, ReadsKept, AddsOwnValue, Closed, Plain, Acyclic, PowerKnown;
    if Known(c, links[j]) {
      var d, before := Upstream(c, links[j].name), UpstreamOf(c, links[..k]);
      UpstreamIsClosed(c, links[j].name);
      UpstreamHasIt(c, links[j].name);
      forall x | x in d && x in c.sensors
        ensures AddsOwnValue(c, w, GivenTo(c, a, now, bypass), GivenTo(c, b, now, bypass), x)
      {
        if x in before {
          var i :| 0 <= i < k && Known(c, links[..k][i]) && x in Upstream(c, links[..k][i].name);
          assert Shared(c, links, i, j, x);
          SharedIsPlain(c, bypass, links, i, j, x);
        }
        ReadInBetween(c, w, a, b, now, bypass, before, x);
      }
      AgreeAt(c, w, GivenTo(c, a, now, bypass), GivenTo(c, b, now, bypass), d, links[j].name);
    }
  }

  lemma UpstreamHasIt(c: Config, s: string)
    requires s in c.sensors
    ensures s in Upstream(c, s)
  {
  }

  /** Having read the links does not show in the coefficients. */
  lemma {:induction false} CoefficientsKept(c: Config, w: World, a: Statuses, b: Statuses, now: int, bypass: bool,
                                            v: Virtual, r: nat, n: nat)
    requires Acyclic(c) && PowerKnown(c, w) && Apart(c, bypass, Inputs(v))
    requires ReadsOf(c, UpstreamOf(c, v.links), a, b, now, bypass) && ReadsKept(c, w, a, b, now, bypass)
    requires RanksBelow(c, v.coefficients, r) && RailsKnown(v.coefficients, w) && n <= |v.coefficients|
    ensures Sources(c, w, GivenTo(c, a, now, bypass), v.coefficients, r, n) ==
            Sources(c, w, GivenTo(c, b, now, bypass), v.coefficients, r, n)
  {
    hide Source, Acyclic, PowerKnown, GivenTo, Apart, ReadsOf, ReadsKept, UpstreamOf;
    if n > 0 {
      CoefficientsKept(c, w, a, b, now, bypass, v, r, n - 1);
      var k := |v.links|;
      assert Inputs(v)[..k] == v.links && Inputs(v)[k + n - 1] == v.coefficients[n - 1];
      LinkKept(c, w, a, b, now, bypass, Inputs(v), k, k + n - 1, r);
    }
  }

  /** Links and coefficients are apart among themselves too. */
  lemma PartsApart(c: Config, bypass: bool, v: Virtual)
    requires Apart(c, bypass, Inputs(v))
    ensures Apart(c, bypass, v.links) && Apart(c, bypass, v.coefficients)
  {
    hide Upstream;
    var all, k := Inputs(v), |v.links|;
    forall i: nat, j: nat, x | Shared(c, v.links, i, j, x)
      ensures Steady(c.sensors[x], bypass)
    {
      assert all[i] == v.links[i] && all[j] == v.links[j];
      assert Shared(c, all, i, j, x);
    }
    forall i: nat, j: nat, x | Shared(c, v.coefficients, i, j, x)
      ensures Steady(c.sensors[x], bypass)
    {
      assert all[k + i] == v.coefficients[i] && all[k + j] == v.coefficients[j];
      assert Shared(c, all, k + i, k + j, x);
    }
  }

  /** If every fresh sample is the value of its sensor, reads through the cache are reads past it. */
  lemma CoherentCacheIsInvisible(c: Config, w: World, st: Statuses, now: int, s: string)
    requires Acyclic(c) && PowerKnown(c, w) && st.Keys == c.sensors.Keys && s in st
    requires Coherent(c, w, st, now)
    ensures Value(c, w, GivenTo(c, st, now, false), s) == Value(c, w, GivenTo(c, st, now, true), s)
  {
    var g, h, d := GivenTo(c, st, now, true), GivenTo(c, st, now, false), c.sensors.Keys;
    hide Value, Acyclic, PowerKnown;
    forall x | x in d && x in c.sensors
      ensures AddsOwnValue(c, w, g, h, x)
    {
      if x in h.taken && x !in g.taken {
        assert IsFresh(c, st, x, now);
      }
    }
    AgreeAt(c, w, g, h, d, s);
  }

  /** A sample young enough to be taken is what a read past it would give, unless its sensor is emulated. */
  ghost predicate Coherent(c: Config, w: World, st: Statuses, now: int)
    requires Acyclic(c) && PowerKnown(c, w) && st.Keys == c.sensors.Keys
  {
    forall s :: s in st && s !in Emulated(st) && IsFresh(c, st, s, now) ==>
                  Value(c, w, GivenTo(c, st, now, true), s) == Got(st[s].cached.value.temp)
  }

  // ---------- Emulation ----------

  function Marked(x: SensorStatus, maxThrottling: bool): SensorStatus {
    x.(override := x.override.(maxThrottling := maxThrottling, pendingUpdate := true))
  }

  /** Exactly the sensors that t affects are marked; nothing else changes. */
  ghost predicate MarkedFrom(c: Config, t: string, maxThrottling: bool, a: Statuses, b: Statuses) {
    a.Keys == b.Keys &&
    forall s :: s in a ==> b[s] == if Affected(c, t, s) then Marked(a[s], maxThrottling) else a[s]
  }

  ghost predicate FedWithin(c: Config, t: string, done: set<string>, s: string) {
    exists d :: d in done && FedBy(c, t, d, s)
  }

  ghost predicate MarkedWithin(c: Config, t: string, maxThrottling: bool, done: set<string>, a: Statuses, b: Statuses) {
    a.Keys == b.Keys &&
    forall s :: s in a ==> b[s] == if FedWithin(c, t, done, s) then Marked(a[s], maxThrottling) else a[s]
  }

  lemma SkipKeepsMarks(c: Config, t: string, mt: bool, done: set<string>, d: string, a: Statuses, b: Statuses)
    requires MarkedWithin(c, t, mt, done, a, b) && !Feeds(c, t, d)
    ensures MarkedWithin(c, t, mt, done + {d}, a, b)
  {
    forall s | s in a
      ensures FedWithin(c, t, done + {d}, s) <==> FedWithin(c, t, done, s)
    {
      if FedWithin(c, t, done, s) {
        var x :| x in done && FedBy(c, t, x, s);
        assert x in done + {d};
      }
    }
  }

  lemma MarksGrow(c: Config, t: string, mt: bool, done: set<string>, d: string, a: Statuses, b: Statuses, b': Statuses)
    requires MarkedWithin(c, t, mt, done, a, b) && Feeds(c, t, d) && d in a
    requires MarkedFrom(c, d, mt, b[d := Marked(b[d], mt)], b')
    ensures MarkedWithin(c, t, mt, done + {d}, a, b')
  {
    forall s | s in a
      ensures b'[s] == if FedWithin(c, t, done + {d}, s) then Marked(a[s], mt) else a[s]
    {
      if d == s || Affected(c, d, s) {
        assert d in done + {d} && FedBy(c, t, d, s);
      } else if FedWithin(c, t, done, s) {
        var x :| x in done && FedBy(c, t, x, s);
        assert x in done + {d};
      }
    }
  }

  lemma AllDoneIsMarkedFrom(c: Config, t: string, mt: bool, a: Statuses, b: Statuses)
    requires MarkedWithin(c, t, mt, c.sensors.Keys, a, b)
    ensures MarkedFrom(c, t, mt, a, b)
  {
    forall s | s in a
      ensures FedWithin(c, t, c.sensors.Keys, s) <==> Affected(c, t, s)
    {
      if FedWithin(c, t, c.sensors.Keys, s) {
        var d :| d in c.sensors.Keys && FedBy(c, t, d, s);
        FedByIsAffected(c, t, d, s);
      }
      if Affected(c, t, s) {
        var d := AffectedIsFedBy(c, t, s);
        assert d in c.sensors.Keys;
      }
    }
  }

  const CLEARED := Override(None, false, true)

  function WithOverride(x: SensorStatus, o: Override): SensorStatus {
    x.(override := o)
  }

  lemma MarksDoNotEmulate(c: Config, t: string, mt: bool, a: Statuses, b: Statuses)
    requires MarkedFrom(c, t, mt, a, b)
    ensures Emulated(a) == Emulated(b)
  {
    hide Affected;
    forall s | s in a
      ensures a[s].override.emulTemp == b[s].override.emulTemp
    {
    }
  }

  /** The target is overridden; the sensors it affects keep their emulated temperature, if any, and are to be updated, with
      the target's choice of throttling; nothing else changes. */
  ghost predicate Forced(c: Config, t: string, o: Override, a: Statuses, b: Statuses) {
    && a.Keys == b.Keys && t in a && b[t] == a[t].(override := o)
    && forall s :: s in a && s != t ==>
                     b[s] == if Affected(c, t, s)
                             then a[s].(override := Override(a[s].override.emulTemp, o.maxThrottling, true))
                             else a[s]
  }

  lemma MarksForce(c: Config, t: string, o: Override, a: Statuses, b: Statuses)
    requires t in a && o.pendingUpdate && MarkedFrom(c, t, o.maxThrottling, a[t := WithOverride(a[t], o)], b)
    ensures Forced(c, t, o, a, b)
  {
    hide Affected;
  }

  lemma OverrideEmulates(st: Statuses, t: string, o: Override)
    requires t in st
    ensures Emulated(st[t := WithOverride(st[t], o)]) ==
            if o.emulTemp.Some? then Emulated(st)[t := o.emulTemp.value] else Emulated(st) - {t}
  {
  }

  lemma GivenUnderEmulation(c: Config, st: Statuses, t: string, o: Override, now: int)
    requires t in st && o.emulTemp.Some?
    ensures GivenTo(c, st[t := WithOverride(st[t], o)], now, true) == Emulating(GivenTo(c, st, now, true), t, o.emulTemp.value)
  {
    var st' := st[t := WithOverride(st[t], o)];
    OverrideEmulates(st, t, o);
    SamplesKept(c, st, t, st'[t], now);
  }

  lemma ClearedEmulateNothing(st: Statuses)
    requires forall s :: s in st ==> st[s].override == CLEARED
    ensures Emulated(st) == map[]
  {
  }

  // ---------- Severities and notifications ----------

  function MaxSeverity(a: Severity, b: Severity): Severity {
    if a > b then a else b
  }

  predicate ExplainedBy(info: SensorInfo, x: SensorStatus, vs: seq<real>) {
    && x.prevHot == HotAfter(info.hot, vs)
    && x.prevCold == ColdAfter(info.cold, vs)
    && x.severity == MaxSeverity(x.prevHot, x.prevCold)
  }

  /** Each sensor's severities are those of a run over the temperatures it has been evaluated at. */
  ghost predicate Explained(c: Config, st: Statuses, history: map<string, seq<real>>) {
    && history.Keys == st.Keys == c.sensors.Keys
    && forall s :: s in st ==> ExplainedBy(c.sensors[s], st[s], history[s])
  }

  /** Replaying the notifications gives each callback-enabled sensor's severity. */
  ghost predicate Reported(c: Config, st: Statuses, sent: seq<Notification>) {
    && st.Keys == c.sensors.Keys
    && EveryOneChanges(sent)
    && forall s :: s in st && c.sensors[s].sendCb ==> LastSent(sent, s) == st[s].severity
  }

  ghost predicate SameSeverities(a: Statuses, b: Statuses) {
    a.Keys == b.Keys &&
    forall s :: s in a ==> a[s].severity == b[s].severity && a[s].prevHot == b[s].prevHot && a[s].prevCold == b[s].prevCold
  }

  lemma CachesKeepSeverities(a: Statuses, b: Statuses)
    requires OnlyCachesDiffer(a, b)
    ensures SameSeverities(a, b)
  {
    forall s | s in a
      ensures a[s].severity == b[s].severity && a[s].prevHot == b[s].prevHot && a[s].prevCold == b[s].prevCold
    {
      assert SameButCache(a[s], b[s]);
    }
  }

  lemma MarksKeepSeverities(c: Config, t: string, mt: bool, o: Override, a: Statuses, b: Statuses)
    requires t in a && MarkedFrom(c, t, mt, a[t := WithOverride(a[t], o)], b)
    ensures SameSeverities(a, b)
  {
    hide Affected;
  }

  /** Whatever leaves the severities alone keeps them explained and reported. */
  lemma SameSeveritiesKeep(c: Config, a: Statuses, b: Statuses, history: map<string, seq<real>>, sent: seq<Notification>)
    requires SameSeverities(a, b)
    ensures Explained(c, a, history) ==> Explained(c, b, history)
    ensures Reported(c, a, sent) ==> Reported(c, b, sent)
  {
    hide HotAfter, ColdAfter, EveryOneChanges, LastSent;
    if Explained(c, a, history) {
      forall s | s in b
        ensures ExplainedBy(c.sensors[s], b[s], history[s])
      {
        assert ExplainedBy(c.sensors[s], a[s], history[s]);
      }
    }
  }

  lemma ReadingIsExplained(info: SensorInfo, x: SensorStatus, y: SensorStatus, vs: seq<real>, v: real)
    requires ExplainedBy(info, x, vs)
    requires y.prevHot == HotSeverity(info.hot, x.prevHot, v) && y.prevCold == ColdSeverity(info.cold, x.prevCold, v)
    requires y.severity == MaxSeverity(y.prevHot, y.prevCold)
    ensures ExplainedBy(info, y, vs + [v])
  {
    hide HotSeverity, ColdSeverity;
    assert (vs + [v])[..|vs + [v]| - 1] == vs;
  }

  /** The status after an evaluation at time now. */
  function Evaluated(x: SensorStatus, hot: Severity, cold: Severity, now: int): SensorStatus {
    x.(prevHot := hot, prevCold := cold, severity := MaxSeverity(hot, cold), lastUpdate := Some(now))
  }

  lemma EvaluationIsExplained(c: Config, st: Statuses, history: map<string, seq<real>>, s: string,
                              hot: Severity, cold: Severity, v: real, now: int)
    requires Explained(c, st, history) && s in st
    requires hot == HotSeverity(c.sensors[s].hot, st[s].prevHot, v) && cold == ColdSeverity(c.sensors[s].cold, st[s].prevCold, v)
    ensures s in history && Explained(c, st[s := Evaluated(st[s], hot, cold, now)], history[s := history[s] + [v]])
  {
    hide HotSeverity, ColdSeverity, ExplainedBy;
    assert ExplainedBy(c.sensors[s], st[s], history[s]);
    ReadingIsExplained(c.sensors[s], st[s], Evaluated(st[s], hot, cold, now), history[s], v);
  }

  /** The stored severity is the worse of the two sides. */
  lemma SeverityIsWorse(c: Config, st: Statuses, history: map<string, seq<real>>, s: string, l: Severity)
    requires Explained(c, st, history) && s in st
    ensures st[s].severity >= l <==> st[s].prevHot >= l || st[s].prevCold >= l
  {
    assert ExplainedBy(c.sensors[s], st[s], history[s]);
  }

  predicate Latches(b: Table, l: Severity) {
    WellFormed(b) && Configured(b, l) && Sticky(b, l)
  }

  predicate Blank(b: Table) {
    forall l: Severity :: b.thr[l].None?
  }

  /** In a watched history the hot severity obeys the latch of every sticky level, and the cold one that of every
      sticky level of the mirrored table over the negated temperatures; the severity is at or above a level that
      latches on both sides if and only if one of the two latches is on, and one side alone decides if the other
      one has no thresholds. */
  lemma SeverityIsLatched(c: Config, st: Statuses, history: map<string, seq<real>>, s: string, l: Severity)
    requires Explained(c, st, history) && s in st
    ensures
      var b := c.sensors[s].hot;
      Latches(b, l) ==> (st[s].prevHot >= l <==> LatchAfter(b, l, history[s]))
    ensures
      var b := Mirror(c.sensors[s].cold);
      Latches(b, l) ==> (st[s].prevCold >= l <==> LatchAfter(b, l, Negated(history[s])))
    ensures
      var b, m, vs := c.sensors[s].hot, Mirror(c.sensors[s].cold), history[s];
      && (Latches(b, l) && Latches(m, l) ==>
            (st[s].severity >= l <==> LatchAfter(b, l, vs) || LatchAfter(m, l, Negated(vs))))
      && (Latches(b, l) && Blank(m) ==> (st[s].severity >= l <==> LatchAfter(b, l, vs)))
      && (Blank(b) && Latches(m, l) ==> (st[s].severity >= l <==> LatchAfter(m, l, Negated(vs))))
  {
    SeverityIsWorse(c, st, history, s, l);
    var hot, cold := c.sensors[s].hot, Mirror(c.sensors[s].cold);
    ColdMirrorsHot(c.sensors[s].cold, history[s]);
    if Latches(hot, l) {
      StickyTracksLatch(hot, l, history[s]);
    }
    if Latches(cold, l) {
      StickyTracksLatch(cold, l, Negated(history[s]));
    }
    SeverityIsConfigured(hot, history[s]);
    SeverityIsConfigured(cold, Negated(history[s]));
  }

  /** The status of a sensor whose pending mark was taken. */
  function Taken(x: SensorStatus): SensorStatus {
    x.(override := x.override.(pendingUpdate := false))
  }

  lemma EvaluationsAreNoSamples(a: Statuses, b: Statuses, s: string, x: SensorStatus, now: int)
    requires Stamped(a, b, now) && s in b && x.cached == b[s].cached && x.override == b[s].override
    ensures Stamped(a, b[s := x], now)
  {
  }

  lemma MarksAreNoSamples(st: Statuses, s: string, now: int)
    requires s in st
    ensures Stamped(st, st[s := Taken(st[s])], now)
  {
  }

  lemma ExplainedKeys(c: Config, st: Statuses, h: map<string, seq<real>>)
    requires Explained(c, st, h)
    ensures h.Keys == st.Keys == c.sensors.Keys
  {
  }

  lemma EmulatedHere(st: Statuses, s: string)
    requires s in st
    ensures s in Emulated(st) <==> st[s].override.emulTemp.Some?
    ensures s in Emulated(st) ==> Emulated(st)[s] == st[s].override.emulTemp.value
  {
  }

  /** Severities, times and marks do not show in readings. */
  lemma GivenKept(c: Config, st: Statuses, s: string, x: SensorStatus, now: int, bypass: bool)
    requires s in st && x.cached == st[s].cached && x.override.emulTemp == st[s].override.emulTemp
    ensures GivenTo(c, st[s := x], now, bypass) == GivenTo(c, st, now, bypass)
  {
    EmulatedKept(st, s, x);
    SamplesKept(c, st, s, x, now);
    hide Emulated, FreshSamples, RecentSamples;
  }

  lemma EmulatedKept(st: Statuses, s: string, x: SensorStatus)
    requires s in st && x.override.emulTemp == st[s].override.emulTemp
    ensures Emulated(st[s := x]) == Emulated(st)
  {
  }

  lemma SamplesKept(c: Config, st: Statuses, s: string, x: SensorStatus, now: int)
    requires s in st && x.cached == st[s].cached
    ensures FreshSamples(c, st[s := x], now) == FreshSamples(c, st, now)
    ensures RecentSamples(c, st[s := x], now) == RecentSamples(c, st, now)
  {
    RecentKept(c, st, s, x, now);
    hide RecentSamples;
  }

  lemma RecentKept(c: Config, st: Statuses, s: string, x: SensorStatus, now: int)
    requires s in st && x.cached == st[s].cached
    ensures RecentSamples(c, st[s := x], now) == RecentSamples(c, st, now)
  {
  }

  lemma TakingKeepsExplained(c: Config, st: Statuses, s: string, history: map<string, seq<real>>)
    requires Explained(c, st, history) && s in st
    ensures Explained(c, st[s := Taken(st[s])], history)
  {
    hide HotAfter, ColdAfter;
    assert ExplainedBy(c.sensors[s], st[s], history[s]);
  }
}
