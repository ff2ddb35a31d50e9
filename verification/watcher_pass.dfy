/** One pass of the watcher: which sensors are due, what a pass changes, how long it sleeps, what it sends. */
module WatcherPass {
  import opened Options
  import opened Severities
  import opened SensorGraph
  import opened Notifications
  import opened SensorStatuses

  predicate TriggersKnown(c: Config) {
    forall s :: s in c.sensors && c.sensors[s].virtual.Some? ==>
                  forall i :: 0 <= i < |c.sensors[s].virtual.value.triggers| ==>
                                c.sensors[s].virtual.value.triggers[i] in c.sensors
  }

  predicate Throttled(st: Statuses, s: string) {
    s in st && st[s].severity != NONE
  }

  predicate TriggerThrottled(st: Statuses, v: Virtual) {
    exists i :: 0 <= i < |v.triggers| && Throttled(st, v.triggers[i])
  }

  predicate Pressed(info: SensorInfo, st: Statuses) {
    info.virtual.Some? && TriggerThrottled(st, info.virtual.value)
  }

  /** How long a sensor may sleep: its passive delay while it or one of its triggers is throttled. */
  function SleepOf(info: SensorInfo, st: Statuses, x: SensorStatus): int {
    if x.severity != NONE || Pressed(info, st) then info.passiveDelay else info.pollingDelay
  }

  predicate Notified(info: SensorInfo, s: string, uevents: set<string>) {
    match info.virtual
    case None => s in uevents
    case Some(v) => exists i :: 0 <= i < |v.triggers| && v.triggers[i] in uevents
  }

  /** Never updated, named by an event, or, in a pass without events, overdue. */
  predicate Due(info: SensorInfo, st: Statuses, s: string, x: SensorStatus, now: int, uevents: set<string>) {
    || x.lastUpdate.None?
    || if uevents != {} then Notified(info, s, uevents) else now - x.lastUpdate.value > SleepOf(info, st, x)
  }

  /** A physical sensor named by an event is read past its sample. */
  predicate Bypasses(info: SensorInfo, s: string, x: SensorStatus, uevents: set<string>) {
    info.virtual.None? && x.lastUpdate.Some? && s in uevents
  }

  /** What a pass does to one watched sensor: a mark forces a read and is taken; a successful read adds
      one temperature, the emulated one if there is one; otherwise only the cache may change. */
  ghost predicate Passed(info: SensorInfo, now: int, a: SensorStatus, b: SensorStatus, ha: seq<real>, hb: seq<real>,
                         tried: bool, failed: bool)
  {
    && (a.override.pendingUpdate ==> tried)
    && (tried && a.override.emulTemp.Some? ==> !failed)
    && b.override == Override(a.override.emulTemp, a.override.maxThrottling, false)
    && if tried && !failed
       then && b.lastUpdate == Some(now) && |hb| == |ha| + 1 && hb[..|ha|] == ha
            && (a.override.emulTemp.Some? ==> hb[|ha|] == Product(a.override.emulTemp.value, info.multiplier))
       else SameButCache(Taken(a), b) && hb == ha
  }

  lemma PassedIgnoresCache(info: SensorInfo, now: int, a: SensorStatus, b: SensorStatus, b': SensorStatus,
                           ha: seq<real>, hb: seq<real>, tried: bool, failed: bool)
    requires Passed(info, now, a, b, ha, hb, tried, failed) && SameButCache(b, b')
    ensures Passed(info, now, a, b', ha, hb, tried, failed)
  {
    hide Product;
  }

  lemma PassedFromStart(info: SensorInfo, now: int, a: SensorStatus, b: SensorStatus, b': SensorStatus,
                        h: seq<real>, h': seq<real>, tried: bool, failed: bool)
    requires SameButCache(a, b) && Passed(info, now, b, b', h, h', tried, failed)
    ensures Passed(info, now, a, b', h, h', tried, failed)
  {
    hide Product;
  }

  /** The delay a sensor asks for whose status went from a to b in a pass: the passive one while it is throttled, the
      polling one when it has just recovered, and otherwise what its triggers decide. */
  function DelayOf(info: SensorInfo, a: SensorStatus, b: SensorStatus, pressed: bool): int {
    if b.severity != NONE || (a.severity == NONE && pressed) then info.passiveDelay else info.pollingDelay
  }

  /** When that sensor asks to be looked at again. */
  function WakeAt(info: SensorInfo, a: SensorStatus, b: SensorStatus, pressed: bool): Option<int> {
    if b.lastUpdate.Some? then Some(b.lastUpdate.value + DelayOf(info, a, b, pressed)) else None
  }

  /** temps holds one entry, with the new severity, for exactly the sensors whose severity changed. */
  ghost predicate Changes(a: Statuses, b: Statuses, temps: seq<Notification>) {
    && a.Keys == b.Keys
    && (forall j :: 0 <= j < |temps| ==> temps[j].name in b && temps[j].severity == b[temps[j].name].severity)
    && (forall j :: 0 <= j < |temps| ==> temps[j].name in a && temps[j].severity != a[temps[j].name].severity)
    && (forall j, k :: 0 <= j < k < |temps| ==> temps[j].name != temps[k].name)
    && (forall x :: x in a && a[x].severity != b[x].severity ==> exists j :: 0 <= j < |temps| && temps[j].name == x)
  }

  lemma ChangesStep(a: Statuses, b: Statuses, b': Statuses, temps: seq<Notification>, s: string, change: Option<Notification>)
    requires Changes(a, b, temps) && b'.Keys == b.Keys && s in b && a[s].severity == b[s].severity
    requires forall x :: x in b && x != s ==> b'[x].severity == b[x].severity
    requires change.Some? <==> b'[s].severity != b[s].severity
    requires change.Some? ==> change.value.name == s && change.value.severity == b'[s].severity
    ensures Changes(a, b', Extended(temps, change))
  {
    if change.Some? {
      var temps' := temps + [change.value];
      forall x | x in a && a[x].severity != b'[x].severity
        ensures exists j :: 0 <= j < |temps'| && temps'[j].name == x
      {
        if x == s {
          assert temps'[|temps|].name == x;
        } else {
          var j :| 0 <= j < |temps| && temps[j].name == x;
          assert temps'[j].name == x;
        }
      }
    }
  }

  /** Every change carries the temperature its sensor was last evaluated at. */
  ghost predicate Carried(h: map<string, seq<real>>, temps: seq<Notification>) {
    forall j :: 0 <= j < |temps| ==>
                  && temps[j].name in h && h[temps[j].name] != []
                  && temps[j].value == h[temps[j].name][|h[temps[j].name]| - 1]
  }

  lemma CarriedStep(c: Config, a: Statuses, b: Statuses, temps: seq<Notification>, h: map<string, seq<real>>,
                    h': map<string, seq<real>>, s: string, change: Option<Notification>)
    requires Carried(h, temps) && Changes(a, b, temps) && s in a && s in b && a[s].severity == b[s].severity
    requires b.Keys == c.sensors.Keys && forall x :: x in c.sensors && x != s && x in h ==> x in h' && h'[x] == h[x]
    requires change.Some? ==>
               && change.value.name == s && s in h' && h'[s] != [] && change.value.value == h'[s][|h'[s]| - 1]
    ensures Carried(h', Extended(temps, change))
  {
  }

  function Wanted(c: Config, temps: seq<Notification>): seq<Notification> {
    if temps == [] then []
    else
      var n := |temps| - 1;
      Wanted(c, temps[..n]) + if temps[n].name in c.sensors && c.sensors[temps[n].name].sendCb then [temps[n]] else []
  }

  predicate Named(temps: seq<Notification>, s: string) {
    exists j :: 0 <= j < |temps| && temps[j].name == s
  }

  lemma NamedExtends(temps: seq<Notification>, t: Notification)
    ensures forall s :: Named(temps + [t], s) <==> Named(temps, s) || s == t.name
  {
    var temps' := temps + [t];
    assert temps'[|temps|] == t;
    forall s | Named(temps, s)
      ensures Named(temps', s)
    {
      var j :| 0 <= j < |temps| && temps[j].name == s;
      assert temps'[j].name == s;
    }
  }

  lemma WantedExtends(c: Config, temps: seq<Notification>, t: Notification)
    ensures Wanted(c, temps + [t]) == Wanted(c, temps) + if t.name in c.sensors && c.sensors[t.name].sendCb then [t] else []
  {
    assert (temps + [t])[..|temps|] == temps;
  }

  /** Exactly the changes of callback-enabled sensors are wanted. */
  lemma {:induction false} WantedIs(c: Config, temps: seq<Notification>)
    ensures forall t :: t in Wanted(c, temps) <==> t in temps && t.name in c.sensors && c.sensors[t.name].sendCb
  {
    if temps != [] {
      var n := |temps| - 1;
      WantedIs(c, temps[..n]);
      assert temps == temps[..n] + [temps[n]];
    }
  }

  /** They are wanted in their order. */
  lemma {:induction false} WantedAppends(c: Config, temps: seq<Notification>, more: seq<Notification>)
    ensures Wanted(c, temps + more) == Wanted(c, temps) + Wanted(c, more)
  {
    if more == [] {
      assert temps + more == temps;
    } else {
      var n := |more| - 1;
      WantedAppends(c, temps, more[..n]);
      WantedAppendsOne(c, temps, more[..n], more[n]);
      assert more[..n] + [more[n]] == more;
    }
  }

  lemma WantedAppendsOne(c: Config, temps: seq<Notification>, some: seq<Notification>, x: Notification)
    requires Wanted(c, temps + some) == Wanted(c, temps) + Wanted(c, some)
    ensures Wanted(c, temps + (some + [x])) == Wanted(c, temps) + Wanted(c, some + [x])
  {
    hide Wanted;
    WantedExtends(c, temps + some, x);
    WantedExtends(c, some, x);
    assert temps + (some + [x]) == temps + some + [x];
  }

  /** Of the changes from a to b in temps the first k have been handed out. */
  ghost predicate Delivered(c: Config, a: Statuses, b: Statuses, sent0: seq<Notification>, sent: seq<Notification>,
                            temps: seq<Notification>, k: nat)
  {
    && k <= |temps| && Changes(a, b, temps) && a.Keys == c.sensors.Keys && EveryOneChanges(sent)
    && sent == sent0 + Wanted(c, temps[..k])
    && forall s :: s in a && c.sensors[s].sendCb ==>
                     LastSent(sent, s) == if Named(temps[..k], s) then b[s].severity else a[s].severity
  }

  lemma NothingDelivered(c: Config, a: Statuses, b: Statuses, sent: seq<Notification>, temps: seq<Notification>)
    requires Changes(a, b, temps) && Reported(c, a, sent)
    ensures Delivered(c, a, b, sent, sent, temps, 0)
  {
    hide LastSent, EveryOneChanges;
    assert temps[..0] == [];
  }

  lemma DeliverStep(c: Config, a: Statuses, b: Statuses, sent0: seq<Notification>, sent: seq<Notification>,
                    temps: seq<Notification>, k: nat)
    requires Delivered(c, a, b, sent0, sent, temps, k) && k < |temps|
    ensures temps[k].name in c.sensors
    ensures Delivered(c, a, b, sent0, if c.sensors[temps[k].name].sendCb then sent + [temps[k]] else sent, temps, k + 1)
  {
    hide LastSent, EveryOneChanges, Named, Wanted;
    var t := temps[k];
    assert temps[..k + 1] == temps[..k] + [t];
    NamedExtends(temps[..k], t);
    WantedExtends(c, temps[..k], t);
    assert !Named(temps[..k], t.name) by {
      NotYetNamed(a, b, temps, k);
    }
    if c.sensors[t.name].sendCb {
      ChangesExtend(sent, t);
      assert sent + [t] == sent0 + Wanted(c, temps[..k + 1]);
    }
  }

  lemma ChangesAreKnown(a: Statuses, b: Statuses, temps: seq<Notification>, k: nat)
    requires Changes(a, b, temps) && k < |temps|
    ensures temps[k].name in b
  {
  }

  lemma NotYetNamed(a: Statuses, b: Statuses, temps: seq<Notification>, k: nat)
    requires Changes(a, b, temps) && k < |temps|
    ensures !Named(temps[..k], temps[k].name)
  {
  }

  lemma AllDelivered(c: Config, a: Statuses, b: Statuses, sent0: seq<Notification>, sent: seq<Notification>,
                     temps: seq<Notification>)
    requires Delivered(c, a, b, sent0, sent, temps, |temps|)
    ensures Reported(c, b, sent) && sent == sent0 + Wanted(c, temps)
  {
    hide LastSent, EveryOneChanges, Wanted;
    assert temps[..|temps|] == temps;
  }

  ghost predicate Untouched(a: Statuses, b: Statuses, ha: map<string, seq<real>>, hb: map<string, seq<real>>, x: string) {
    x in a && x in b && x in ha && x in hb && SameButCache(a[x], b[x]) && ha[x] == hb[x]
  }

  /** What a pass has changed of sensor x, which it has been through if `visited`. */
  ghost predicate Settled(c: Config, now: int, a: Statuses, b: Statuses, ha: map<string, seq<real>>, hb: map<string, seq<real>>,
                          visited: bool, tried: bool, failed: bool, x: string)
    requires x in c.sensors
  {
    if visited && c.sensors[x].isWatch
    then && x in a && x in b && x in ha && x in hb
         && Passed(c.sensors[x], now, a[x], b[x], ha[x], hb[x], tried, failed)
    else Untouched(a, b, ha, hb, x)
  }

  ghost predicate PassSoFar(c: Config, now: int, a: Statuses, b: Statuses,
                            ha: map<string, seq<real>>, hb: map<string, seq<real>>,
                            tried: set<string>, failed: set<string>, done: set<string>)
  {
    && failed <= tried <= done
    && forall x :: x in c.sensors ==> Settled(c, now, a, b, ha, hb, x in done, x in tried, x in failed, x)
  }

  lemma SettledIgnoresCache(c: Config, now: int, a: Statuses, b: Statuses, b': Statuses, ha: map<string, seq<real>>,
                            hb: map<string, seq<real>>, hb': map<string, seq<real>>,
                            visited: bool, tried: bool, failed: bool, x: string)
    requires x in c.sensors && Settled(c, now, a, b, ha, hb, visited, tried, failed, x) && Untouched(b, b', hb, hb', x)
    ensures Settled(c, now, a, b', ha, hb', visited, tried, failed, x)
  {
    hide Passed;
    if visited && c.sensors[x].isWatch {
      PassedIgnoresCache(c.sensors[x], now, a[x], b[x], b'[x], ha[x], hb[x], tried, failed);
    }
  }

  lemma SettledNow(c: Config, now: int, a: Statuses, b: Statuses, b': Statuses, ha: map<string, seq<real>>,
                   hb: map<string, seq<real>>, hb': map<string, seq<real>>, t: bool, f: bool, s: string)
    requires s in c.sensors && s in b && s in hb && s in b' && s in hb' && c.sensors[s].isWatch && Untouched(a, b, ha, hb, s)
    requires Passed(c.sensors[s], now, b[s], b'[s], hb[s], hb'[s], t, f)
    ensures Settled(c, now, a, b', ha, hb', true, t, f, s)
  {
    hide Passed;
    PassedFromStart(c.sensors[s], now, a[s], b[s], b'[s], hb[s], hb'[s], t, f);
  }

  lemma PassStep(c: Config, now: int, a: Statuses, b: Statuses, b': Statuses,
                 ha: map<string, seq<real>>, hb: map<string, seq<real>>, hb': map<string, seq<real>>,
                 tried: set<string>, failed: set<string>, done: set<string>, s: string, t: bool, f: bool)
    requires PassSoFar(c, now, a, b, ha, hb, tried, failed, done)
    requires s in c.sensors && s !in done && (f ==> t) && Settled(c, now, a, b', ha, hb', true, t, f, s)
    requires forall x :: x in c.sensors && x != s ==> Untouched(b, b', hb, hb', x)
    ensures PassSoFar(c, now, a, b', ha, hb', tried + (if t then {s} else {}), failed + (if f then {s} else {}), done + {s})
  {
    hide Settled, Untouched;
    var tried', failed' := tried + (if t then {s} else {}), failed + (if f then {s} else {});
    forall x | x in c.sensors && x != s
      ensures Settled(c, now, a, b', ha, hb', x in done + {s}, x in tried', x in failed', x)
    {
      SettledIgnoresCache(c, now, a, b, b', ha, hb, hb', x in done, x in tried, x in failed, x);
    }
  }

  /** A watched sensor that has had its turn and did not fail. */
  predicate Voter(c: Config, done: set<string>, failed: set<string>, s: string) {
    s in done && s in c.sensors && c.sensors[s].isWatch && s !in failed
  }

  /** The sleep ends exactly when the first of the sensors asks for it; there is none if all of them failed. */
  ghost predicate VotesCast(c: Config, a: Statuses, b: Statuses, now: int, done: set<string>, failed: set<string>,
                            pressed: set<string>, sleep: Option<int>)
  {
    && a.Keys == b.Keys == c.sensors.Keys && done <= b.Keys
    && (forall s :: Voter(c, done, failed, s) ==>
                      var wake := WakeAt(c.sensors[s], a[s], b[s], s in pressed);
                      wake.Some? && sleep.Some? && now + sleep.value <= wake.value)
    && (sleep.Some? ==> exists s :: Voter(c, done, failed, s) &&
                                    WakeAt(c.sensors[s], a[s], b[s], s in pressed) == Some(now + sleep.value))
  }

  function Sooner(sleep: Option<int>, vote: Option<int>): Option<int> {
    if vote.Some? && (sleep.None? || sleep.value > vote.value) then vote else sleep
  }

  lemma WakeIgnoresCache(info: SensorInfo, a: SensorStatus, b: SensorStatus, b': SensorStatus, pressed: bool)
    requires SameButCache(b, b')
    ensures WakeAt(info, a, b, pressed) == WakeAt(info, a, b', pressed)
  {
  }

  lemma VoteStep(c: Config, a: Statuses, b: Statuses, b': Statuses, now: int, done: set<string>, failed: set<string>,
                 pressed: set<string>, sleep: Option<int>, s: string, f: bool, p: bool, vote: Option<int>)
    requires VotesCast(c, a, b, now, done, failed, pressed, sleep) && s in b && s !in done && failed <= done
    requires pressed <= done && c.sensors[s].isWatch
    requires b'.Keys == b.Keys && forall x :: x in b && x != s ==> SameButCache(b[x], b'[x])
    requires vote.None? <==> f
    requires vote.Some? ==> WakeAt(c.sensors[s], a[s], b'[s], p) == Some(now + vote.value)
    ensures VotesCast(c, a, b', now, done + {s}, failed + (if f then {s} else {}), pressed + (if p then {s} else {}),
                      Sooner(sleep, vote))
  {
    hide WakeAt, SameButCache;
    var done', failed', pressed' := done + {s}, failed + (if f then {s} else {}), pressed + (if p then {s} else {});
    var sleep' := Sooner(sleep, vote);
    forall x | Voter(c, done', failed', x)
      ensures
        var wake := WakeAt(c.sensors[x], a[x], b'[x], x in pressed');
        wake.Some? && sleep'.Some? && now + sleep'.value <= wake.value
    {
      if x != s {
        assert Voter(c, done, failed, x);
        WakeIgnoresCache(c.sensors[x], a[x], b[x], b'[x], x in pressed);
      }
    }
    if sleep'.Some? {
      if sleep' == vote {
        assert Voter(c, done', failed', s);
      } else {
        var x :| Voter(c, done, failed, x) && WakeAt(c.sensors[x], a[x], b[x], x in pressed) == Some(now + sleep.value);
        assert Voter(c, done', failed', x);
        WakeIgnoresCache(c.sensors[x], a[x], b[x], b'[x], x in pressed);
      }
    }
  }

  /** s was pressed because of a trigger that is throttled before or after the pass, and not pressed because each of its
      triggers is not throttled before or after it. */
  predicate PressedRight(info: SensorInfo, a: Statuses, b: Statuses, pressed: bool) {
    match info.virtual
    case None => !pressed
    case Some(v) =>
      if pressed
      then exists i :: 0 <= i < |v.triggers| && (Throttled(a, v.triggers[i]) || Throttled(b, v.triggers[i]))
      else forall i :: 0 <= i < |v.triggers| ==> !Throttled(a, v.triggers[i]) || !Throttled(b, v.triggers[i])
  }

  ghost predicate PressedSoFar(c: Config, a: Statuses, b: Statuses, done: set<string>, pressed: set<string>) {
    pressed <= done && forall s :: s in done && s in c.sensors && c.sensors[s].isWatch ==>
                                     PressedRight(c.sensors[s], a, b, s in pressed)
  }

  lemma PressedKept(info: SensorInfo, a: Statuses, b: Statuses, b': Statuses, pressed: bool, s: string)
    requires PressedRight(info, a, b, pressed) && Throttled(a, s) == Throttled(b, s)
    requires forall x :: x != s ==> Throttled(b, x) == Throttled(b', x)
    ensures PressedRight(info, a, b', pressed)
  {
  }

  lemma PressedNow(info: SensorInfo, a: Statuses, b: Statuses, b': Statuses, s: string)
    requires Throttled(a, s) == Throttled(b, s) && forall x :: x != s ==> Throttled(b, x) == Throttled(b', x)
    ensures PressedRight(info, a, b', Pressed(info, b))
  {
  }

  lemma PressedStep(c: Config, a: Statuses, b: Statuses, b': Statuses, done: set<string>, pressed: set<string>, s: string)
    requires PressedSoFar(c, a, b, done, pressed) && s in c.sensors && s !in done
    requires Throttled(a, s) == Throttled(b, s) && forall x :: x != s ==> Throttled(b, x) == Throttled(b', x)
    ensures PressedSoFar(c, a, b', done + {s}, pressed + (if Pressed(c.sensors[s], b) then {s} else {}))
  {
    hide PressedRight, Pressed, Throttled;
    var pressed' := pressed + (if Pressed(c.sensors[s], b) then {s} else {});
    forall x | x in done + {s} && x in c.sensors && c.sensors[x].isWatch
      ensures PressedRight(c.sensors[x], a, b', x in pressed')
    {
      if x == s {
        PressedNow(c.sensors[s], a, b, b', s);
      } else {
        PressedKept(c.sensors[x], a, b, b', x in pressed, s);
      }
    }
  }

  function Extended(temps: seq<Notification>, change: Option<Notification>): seq<Notification> {
    if change.Some? then temps + [change.value] else temps
  }

  ghost predicate UnderWay(c: Config, now: int, a: Statuses, b: Statuses, ha: map<string, seq<real>>, hb: map<string, seq<real>>,
                           tried: set<string>, failed: set<string>, done: set<string>, pressed: set<string>,
                           temps: seq<Notification>, sleep: Option<int>)
  {
    && PassSoFar(c, now, a, b, ha, hb, tried, failed, done)
    && Changes(a, b, temps) && Carried(hb, temps)
    && PressedSoFar(c, a, b, done, pressed)
    && VotesCast(c, a, b, now, done, failed, pressed, sleep)
  }

  lemma Arrived(c: Config, now: int, a: Statuses, b: Statuses, ha: map<string, seq<real>>, hb: map<string, seq<real>>,
                tried: set<string>, failed: set<string>, done: set<string>, pressed: set<string>,
                temps: seq<Notification>, sleep: Option<int>)
    requires UnderWay(c, now, a, b, ha, hb, tried, failed, done, pressed, temps, sleep)
    ensures PassSoFar(c, now, a, b, ha, hb, tried, failed, done) && Changes(a, b, temps) && Carried(hb, temps)
    ensures PressedSoFar(c, a, b, done, pressed) && VotesCast(c, a, b, now, done, failed, pressed, sleep)
  {
  }

  lemma Advance(c: Config, now: int, a: Statuses, b: Statuses, b': Statuses,
                ha: map<string, seq<real>>, hb: map<string, seq<real>>, hb': map<string, seq<real>>,
                tried: set<string>, failed: set<string>, done: set<string>, pressed: set<string>,
                temps: seq<Notification>, sleep: Option<int>,
                s: string, t: bool, f: bool, vote: Option<int>, change: Option<Notification>)
    requires UnderWay(c, now, a, b, ha, hb, tried, failed, done, pressed, temps, sleep)
    requires b.Keys == b'.Keys == c.sensors.Keys && s in c.sensors && s !in done && c.sensors[s].isWatch
    requires forall x :: x in c.sensors && x != s ==> Untouched(b, b', hb, hb', x)
    requires s in hb && s in hb' && Passed(c.sensors[s], now, b[s], b'[s], hb[s], hb'[s], t, f) && (f ==> t)
    requires change.Some? <==> b'[s].severity != b[s].severity
    requires change.Some? ==> change.value.name == s && change.value.severity == b'[s].severity
    requires change.Some? ==> hb'[s] != [] && change.value.value == hb'[s][|hb'[s]| - 1]
    requires vote.None? <==> f
    requires vote.Some? ==> WakeAt(c.sensors[s], b[s], b'[s], Pressed(c.sensors[s], b)) == Some(now + vote.value)
    ensures UnderWay(c, now, a, b', ha, hb', tried + (if t then {s} else {}), failed + (if f then {s} else {}), done + {s},
                     pressed + (if Pressed(c.sensors[s], b) then {s} else {}), Extended(temps, change), Sooner(sleep, vote))
  {
    hide PassSoFar, Passed, Changes, VotesCast, Untouched, Pressed, PressedRight, Carried, Extended;
    OthersSame(c, b, b', hb, hb', s);
    PassBounds(c, now, a, b, ha, hb, tried, failed, done, s);
    SettledNow(c, now, a, b, b', ha, hb, hb', t, f, s);
    OthersUntouched(c, b, b', hb, hb', s);
    PassStep(c, now, a, b, b', ha, hb, hb', tried, failed, done, s, t, f);
    SeveritiesOnly(c, a, b, b', s);
    PressedStep(c, a, b, b', done, pressed, s);
    VotersKnown(c, a, b, now, done, failed, pressed, sleep, s);
    VoteStep(c, a, b, b', now, done, failed, pressed, sleep, s, f, Pressed(c.sensors[s], b), vote);
    ChangesStep(a, b, b', temps, s, change);
    CarriedStep(c, a, b, temps, hb, hb', s, change);
  }

  lemma VotersKnown(c: Config, a: Statuses, b: Statuses, now: int, done: set<string>, failed: set<string>,
                    pressed: set<string>, sleep: Option<int>, s: string)
    requires VotesCast(c, a, b, now, done, failed, pressed, sleep) && s in b && a[s].severity == b[s].severity
    ensures forall x, p :: WakeAt(c.sensors[s], a[s], x, p) == WakeAt(c.sensors[s], b[s], x, p)
  {
  }

  lemma SeveritiesOnly(c: Config, a: Statuses, b: Statuses, b': Statuses, s: string)
    requires b.Keys == b'.Keys && s in a && s in b && a[s].severity == b[s].severity
    requires forall x :: x in b && x != s ==> b'[x].severity == b[x].severity
    ensures Throttled(a, s) == Throttled(b, s) && forall x :: x != s ==> Throttled(b, x) == Throttled(b', x)
  {
  }

  lemma SkipUnwatched(c: Config, now: int, a: Statuses, b: Statuses, ha: map<string, seq<real>>, hb: map<string, seq<real>>,
                      tried: set<string>, failed: set<string>, done: set<string>, pressed: set<string>,
                      temps: seq<Notification>, sleep: Option<int>, s: string)
    requires UnderWay(c, now, a, b, ha, hb, tried, failed, done, pressed, temps, sleep)
    requires s in c.sensors && !c.sensors[s].isWatch
    ensures UnderWay(c, now, a, b, ha, hb, tried, failed, done + {s}, pressed, temps, sleep)
  {
    hide Passed, Untouched, Changes, PressedRight, WakeAt, Carried;
    forall x | x in c.sensors
      ensures Settled(c, now, a, b, ha, hb, x in done + {s}, x in tried, x in failed, x)
    {
      assert Settled(c, now, a, b, ha, hb, x in done, x in tried, x in failed, x);
    }
    forall x | Voter(c, done + {s}, failed, x)
      ensures Voter(c, done, failed, x)
    {
    }
    if sleep.Some? {
      var x :| Voter(c, done, failed, x) && WakeAt(c.sensors[x], a[x], b[x], x in pressed) == Some(now + sleep.value);
      assert Voter(c, done + {s}, failed, x);
    }
  }

  /** The temperature a sensor was evaluated at is its value over the graph; without a value the read failed. */
  ghost predicate EvaluatedAt(c: Config, w: World, g: Given, ha: seq<real>, hb: seq<real>, failed: bool, s: string)
    requires Acyclic(c) && PowerKnown(c, w) && s in c.sensors
  {
    match Value(c, w, g, s)
    case Got(x) => !failed && hb == ha + [Product(x, c.sensors[s].multiplier)]
    case _ => failed
  }

  /** Every plain sensor in `read` was evaluated at its value. */
  ghost predicate AllEvaluated(c: Config, w: World, g: Given, ha: map<string, seq<real>>, hb: map<string, seq<real>>,
                               read: set<string>, failed: set<string>)
    requires Acyclic(c) && PowerKnown(c, w)
  {
    forall s :: s in read && s in PlainSet(c, false) ==>
                  s in ha && s in hb && EvaluatedAt(c, w, g, ha[s], hb[s], s in failed, s)
  }

  lemma EvaluatedStep(c: Config, w: World, g: Given, g': Given,
                      ha: map<string, seq<real>>, hb: map<string, seq<real>>, hb': map<string, seq<real>>,
                      read: set<string>, failed: set<string>, s: string, t: bool, f: bool)
    requires Acyclic(c) && PowerKnown(c, w) && AllEvaluated(c, w, g, ha, hb, read, failed) && ReadAlike(c, w, false, g, g')
    requires s in c.sensors && s !in read && s !in failed && s in ha && s in hb && s in hb' && ha[s] == hb[s]
    requires forall x :: x in c.sensors && x != s && x in hb ==> x in hb' && hb'[x] == hb[x]
    requires t && s in PlainSet(c, false) ==> EvaluatedAt(c, w, g', hb[s], hb'[s], f, s)
    ensures AllEvaluated(c, w, g, ha, hb', read + (if t then {s} else {}), failed + (if f then {s} else {}))
  {
    hide Value, Product, Plain;
    var read', failed' := read + (if t then {s} else {}), failed + (if f then {s} else {});
    forall x | x in read' && x in PlainSet(c, false)
      ensures x in ha && x in hb' && EvaluatedAt(c, w, g, ha[x], hb'[x], x in failed', x)
    {
      if x == s {
        assert Value(c, w, g, s) == Value(c, w, g', s);
      } else {
        assert x in read && EvaluatedAt(c, w, g, ha[x], hb[x], x in failed, x);
        assert x in failed' <==> x in failed;
      }
    }
  }

  /** What a pass without events has read. The rails are read again after the first successful read: the sensors
      in `early` were evaluated in world w at their values when the pass began, the others in world w' at
      their values at the time of the refresh, when the statuses were mid. */
  ghost predicate Phases(c: Config, w: World, w': World, now: int, a: Statuses, mid: Statuses, b: Statuses,
                         ha: map<string, seq<real>>, hb: map<string, seq<real>>,
                         tried: set<string>, early: set<string>, failed: set<string>)
    requires Acyclic(c) && PowerKnown(c, w) && PowerKnown(c, w')
  {
    && ReadsKept(c, w, a, mid, now, false) && ReadsKept(c, w', mid, b, now, false) && Stamped(a, mid, now)
    && AllEvaluated(c, w, GivenTo(c, a, now, false), ha, hb, early, failed)
    && AllEvaluated(c, w', GivenTo(c, mid, now, false), ha, hb, tried - early, failed)
  }

  lemma NothingPhased(c: Config, w: World, w': World, now: int, a: Statuses, ha: map<string, seq<real>>)
    requires Acyclic(c) && PowerKnown(c, w) && PowerKnown(c, w')
    ensures Phases(c, w, w', now, a, a, a, ha, ha, {}, {}, {})
  {
    ReadsStart(c, w, a, now, false);
    ReadsStart(c, w', a, now, false);
  }

  lemma OthersSame(c: Config, b: Statuses, b': Statuses, hb: map<string, seq<real>>, hb': map<string, seq<real>>, s: string)
    requires forall x :: x in c.sensors && x != s ==> Untouched(b, b', hb, hb', x)
    ensures forall x :: x in c.sensors && x != s && x in hb ==> x in hb' && hb'[x] == hb[x]
  {
    forall x | x in c.sensors && x != s && x in hb
      ensures x in hb' && hb'[x] == hb[x]
    {
      assert Untouched(b, b', hb, hb', x);
    }
  }

  /** A turn before the refresh. */
  lemma EarlyTurn(c: Config, w: World, w': World, now: int, a: Statuses, b: Statuses, b': Statuses,
                  ha: map<string, seq<real>>, hb: map<string, seq<real>>, hb': map<string, seq<real>>,
                  tried: set<string>, failed: set<string>, s: string, t: bool, f: bool)
    requires Acyclic(c) && PowerKnown(c, w) && PowerKnown(c, w')
    requires Phases(c, w, w', now, a, b, b, ha, hb, tried, tried, failed)
    requires s in c.sensors && s !in tried && s !in failed && s in ha && s in hb && s in hb' && ha[s] == hb[s]
    requires forall x :: x in c.sensors && x != s && x in hb ==> x in hb' && hb'[x] == hb[x]
    requires ReadsKept(c, w, b, b', now, false) && Stamped(b, b', now)
    requires t && s in PlainSet(c, false) ==> EvaluatedAt(c, w, GivenTo(c, b, now, false), hb[s], hb'[s], f, s)
    ensures
      var tried', failed' := tried + (if t then {s} else {}), failed + (if f then {s} else {});
      Phases(c, w, w', now, a, b', b', ha, hb', tried', tried', failed')
  {
    hide Acyclic, PowerKnown, EvaluatedAt, GivenTo, Value, PlainSet, Stamped;
    StampedChain(a, b, b', now);
    ReadsKeptChain(c, w, a, b, b', now, false);
    ReadsStart(c, w', b', now, false);
    EvaluatedStep(c, w, GivenTo(c, a, now, false), GivenTo(c, b, now, false), ha, hb, hb', tried, failed, s, t, f);
  }

  /** A turn after the refresh. */
  lemma LaterTurn(c: Config, w: World, w': World, now: int, a: Statuses, mid: Statuses, b: Statuses, b': Statuses,
                  ha: map<string, seq<real>>, hb: map<string, seq<real>>, hb': map<string, seq<real>>,
                  tried: set<string>, early: set<string>, failed: set<string>, s: string, t: bool, f: bool)
    requires Acyclic(c) && PowerKnown(c, w) && PowerKnown(c, w') && early <= tried
    requires Phases(c, w, w', now, a, mid, b, ha, hb, tried, early, failed)
    requires s in c.sensors && s !in tried && s !in failed && s in ha && s in hb && s in hb' && ha[s] == hb[s]
    requires forall x :: x in c.sensors && x != s && x in hb ==> x in hb' && hb'[x] == hb[x]
    requires ReadsKept(c, w', b, b', now, false)
    requires t && s in PlainSet(c, false) ==> EvaluatedAt(c, w', GivenTo(c, b, now, false), hb[s], hb'[s], f, s)
    ensures Phases(c, w, w', now, a, mid, b', ha, hb', tried + (if t then {s} else {}), early, failed + (if f then {s} else {}))
  {
    hide Acyclic, PowerKnown, EvaluatedAt, GivenTo, Value, PlainSet, AllEvaluated, Stamped;
    var tried' := tried + (if t then {s} else {});
    ReadsKeptChain(c, w', mid, b, b', now, false);
    ReadsStart(c, w, a, now, false);
    EvaluatedStep(c, w, GivenTo(c, a, now, false), GivenTo(c, a, now, false), ha, hb, hb', early, failed, s, false, f);
    EvaluatedStep(c, w', GivenTo(c, mid, now, false), GivenTo(c, b, now, false), ha, hb, hb', tried - early, failed, s, t, f);
    assert tried' - early == tried - early + (if t then {s} else {});
    assert early + {} == early;
  }

  /** One turn of a pass without events, before or after the refresh. */
  lemma Turn(c: Config, w: World, w': World, now: int, a: Statuses, mid: Statuses, b: Statuses, b': Statuses,
             ha: map<string, seq<real>>, hb: map<string, seq<real>>, hb': map<string, seq<real>>,
             tried: set<string>, early: set<string>, failed: set<string>, done: set<string>, uevents: set<string>,
             refreshed: bool, s: string, t: bool, f: bool)
    requires Acyclic(c) && PowerKnown(c, w) && PowerKnown(c, w') && uevents == {} && early <= tried
    requires Phases(c, w, w', now, a, mid, b, ha, hb, tried, early, failed) && (!refreshed ==> early == tried && mid == b)
    requires PassSoFar(c, now, a, b, ha, hb, tried, failed, done) && s in c.sensors && s !in done
    requires forall x :: x in c.sensors && x != s ==> Untouched(b, b', hb, hb', x)
    requires s in b && s in hb && s in hb' && Stamped(b, b', now)
    requires
      var world, bypass := if refreshed then w' else w, Bypasses(c.sensors[s], s, b[s], uevents);
      && ReadsKept(c, world, b, b', now, bypass)
      && (t && ReadOnce(c, bypass, s) ==> EvaluatedAt(c, world, GivenTo(c, b, now, bypass), hb[s], hb'[s], f, s))
    ensures
      var tried', failed' := tried + (if t then {s} else {}), failed + (if f then {s} else {});
      Phases(c, w, w', now, a, if refreshed then mid else b', b', ha, hb', tried', if refreshed then early else tried', failed')
  {
    hide Acyclic, PowerKnown, Phases, PassSoFar, ReadsKept, GivenTo, EvaluatedAt, Plain, ReadOnce, Stamped;
    PassBounds(c, now, a, b, ha, hb, tried, failed, done, s);
    OthersSame(c, b, b', hb, hb', s);
    if s in PlainSet(c, false) {
      PlainIsReadOnce(c, false, s);
    }
    if refreshed {
      LaterTurn(c, w, w', now, a, mid, b, b', ha, hb, hb', tried, early, failed, s, t, f);
    } else {
      EarlyTurn(c, w, w', now, a, b, b', ha, hb, hb', tried, failed, s, t, f);
    }
  }

  lemma NothingRefreshed()
    ensures RefreshedOnce({}, {}, {}, false)
  {
  }

  /** Before the refresh every read has failed; afterwards exactly one of the early ones has not. */
  ghost predicate RefreshedOnce(tried: set<string>, early: set<string>, failed: set<string>, refreshed: bool) {
    && early <= tried
    && (!refreshed ==> early == tried && tried <= failed)
    && (refreshed ==> exists x :: x in early && x !in failed && forall y :: y in early && y !in failed ==> y == x)
  }

  lemma EarlyWereTried(tried: set<string>, early: set<string>, failed: set<string>, refreshed: bool)
    requires RefreshedOnce(tried, early, failed, refreshed)
    ensures early <= tried
  {
  }

  lemma RefreshStep(tried: set<string>, early: set<string>, failed: set<string>, refreshed: bool, s: string, t: bool, f: bool)
    requires RefreshedOnce(tried, early, failed, refreshed) && s !in tried && s !in failed && (f ==> t)
    ensures
      var tried', failed' := tried + (if t then {s} else {}), failed + (if f then {s} else {});
      RefreshedOnce(tried', if refreshed then early else tried', failed', refreshed || (t && !f))
  {
    var tried', failed' := tried + (if t then {s} else {}), failed + (if f then {s} else {});
    if refreshed {
      var x :| x in early && x !in failed && forall y :: y in early && y !in failed ==> y == x;
      assert x in early && x !in failed';
    } else if t && !f {
      assert s in tried' && s !in failed';
    }
  }

  /** Without rails the refresh does not show: every sensor is evaluated at its value when the pass began, in
      whatever order. */
  lemma WithoutRailsOnePhase(c: Config, w: World, w': World, now: int, a: Statuses, mid: Statuses, b: Statuses,
                             ha: map<string, seq<real>>, hb: map<string, seq<real>>,
                             tried: set<string>, early: set<string>, failed: set<string>)
    requires Acyclic(c) && PowerKnown(c, w) && PowerKnown(c, w') && NoRails(c) && w.files == w'.files
    requires Phases(c, w, w', now, a, mid, b, ha, hb, tried, early, failed)
    ensures AllEvaluated(c, w, GivenTo(c, a, now, false), ha, hb, tried, failed)
  {
    hide GivenTo, Plain, Acyclic, PowerKnown, NoRails, Value, Stamped;
    var g, m := GivenTo(c, a, now, false), GivenTo(c, mid, now, false);
    forall s | s in tried && s in PlainSet(c, false)
      ensures s in ha && s in hb && EvaluatedAt(c, w, g, ha[s], hb[s], s in failed, s)
    {
      if s !in early {
        assert s in tried - early;
        RailsDoNotMatter(c, w, w', m, s);
        assert Value(c, w, g, s) == Value(c, w, m, s);
      }
    }
  }

  /** Which watched sensors a pass reads: marked, never updated, named by an event, or in a pass without events
      overdue for the delay their severity at the start and their triggers at their turn select. */
  predicate CallsForRead(info: SensorInfo, s: string, x: SensorStatus, now: int, uevents: set<string>, pressed: bool) {
    || x.override.pendingUpdate || x.lastUpdate.None?
    || if uevents != {} then Notified(info, s, uevents)
       else now - x.lastUpdate.value > if x.severity != NONE || pressed then info.passiveDelay else info.pollingDelay
  }

  ghost predicate Chosen(c: Config, st: Statuses, now: int, uevents: set<string>, tried: set<string>, done: set<string>,
                         pressed: set<string>)
  {
    && tried <= done && pressed <= done
    && forall s :: s in done && s in c.sensors && s in st && c.sensors[s].isWatch ==>
                     (s in tried <==> CallsForRead(c.sensors[s], s, st[s], now, uevents, s in pressed))
  }

  lemma NothingChosen(c: Config, st: Statuses, now: int, uevents: set<string>)
    ensures Chosen(c, st, now, uevents, {}, {}, {})
  {
  }

  lemma ChosenSkips(c: Config, st: Statuses, now: int, uevents: set<string>, tried: set<string>, done: set<string>,
                    pressed: set<string>, s: string)
    requires Chosen(c, st, now, uevents, tried, done, pressed) && s in c.sensors && !c.sensors[s].isWatch
    ensures Chosen(c, st, now, uevents, tried, done + {s}, pressed)
  {
  }

  lemma ChosenStep(c: Config, a: Statuses, b: Statuses, now: int, uevents: set<string>, tried: set<string>, done: set<string>,
                   pressed: set<string>, s: string, t: bool)
    requires Chosen(c, a, now, uevents, tried, done, pressed) && s in c.sensors && s in a && s in b && s !in done
    requires SameButCache(a[s], b[s])
    requires t <==> b[s].override.pendingUpdate || Due(c.sensors[s], b, s, b[s], now, uevents)
    ensures Chosen(c, a, now, uevents, tried + (if t then {s} else {}), done + {s},
                   pressed + (if Pressed(c.sensors[s], b) then {s} else {}))
  {
    hide Notified, Pressed;
  }

  /** Which sensors a pass has read, spelled out: the ones that are marked or were never updated; with events the ones that
      an event names, a virtual sensor through a trigger; without events the ones that were not updated for longer than
      their passive delay while they or a trigger were throttled, and than their polling delay otherwise. */
  lemma ReadWhenDue(c: Config, a: Statuses, b: Statuses, now: int, uevents: set<string>, tried: set<string>,
                    done: set<string>, pressed: set<string>, s: string)
    requires Chosen(c, a, now, uevents, tried, done, pressed) && PressedSoFar(c, a, b, done, pressed)
    requires s in done && s in c.sensors && s in a && c.sensors[s].isWatch
    ensures
      var info, x := c.sensors[s], a[s];
      if x.override.pendingUpdate || x.lastUpdate.None? then s in tried
      else if uevents != {} then
        s in tried <==> match info.virtual
                        case None => s in uevents
                        case Some(v) => exists t :: t in v.triggers && t in uevents
      else if x.severity != 0 || s in pressed then s in tried <==> now > x.lastUpdate.value + info.passiveDelay
      else s in tried <==> now > x.lastUpdate.value + info.pollingDelay
    ensures c.sensors[s].virtual.None? ==> s !in pressed
    ensures s in pressed ==>
              exists t :: t in c.sensors[s].virtual.value.triggers &&
                          ((t in a && a[t].severity != 0) || (t in b && b[t].severity != 0))
    ensures s !in pressed && c.sensors[s].virtual.Some? ==>
              forall t :: t in c.sensors[s].virtual.value.triggers && t in a && t in b ==>
                            a[t].severity == 0 || b[t].severity == 0
  {
    assert PressedRight(c.sensors[s], a, b, s in pressed);
    if c.sensors[s].virtual.Some? {
      var v := c.sensors[s].virtual.value;
      assert forall t :: t in v.triggers <==> exists i :: 0 <= i < |v.triggers| && v.triggers[i] == t;
    }
  }

  /** How long a pass lets the watcher sleep, spelled out: no sensor that is throttled waits longer than its passive delay
      after its last update, none that has just recovered or is quiet with quiet triggers longer than its polling
      delay, and none with a throttled trigger longer than its passive delay; one of them waits exactly that long. */
  lemma SleepSpelled(c: Config, a: Statuses, b: Statuses, now: int, done: set<string>, failed: set<string>,
                     pressed: set<string>, sleep: Option<int>)
    requires VotesCast(c, a, b, now, done, failed, pressed, sleep)
    ensures forall s :: Voter(c, done, failed, s) ==>
              && sleep.Some? && b[s].lastUpdate.Some?
              && now + sleep.value <= b[s].lastUpdate.value + Patience(c.sensors[s], a[s].severity, b[s].severity, s in pressed)
    ensures sleep.Some? ==>
              exists s :: Voter(c, done, failed, s) && b[s].lastUpdate.Some? &&
                          now + sleep.value ==
                          b[s].lastUpdate.value + Patience(c.sensors[s], a[s].severity, b[s].severity, s in pressed)
  {
    forall s | Voter(c, done, failed, s)
      ensures
        && sleep.Some? && b[s].lastUpdate.Some?
        && now + sleep.value <= b[s].lastUpdate.value + Patience(c.sensors[s], a[s].severity, b[s].severity, s in pressed)
    {
      assert WakeAt(c.sensors[s], a[s], b[s], s in pressed).Some?;
    }
  }

  /** By the severity before and after the pass. */
  function Patience(info: SensorInfo, before: Severity, after: Severity, pressed: bool): int {
    if after > 0 then info.passiveDelay
    else if before > 0 then info.pollingDelay
    else if pressed then info.passiveDelay
    else info.pollingDelay
  }

  /** If no trigger of a sensor is throttled by the pass or recovers in it, and so for every sensor without triggers,
      the statuses at the start decide whether it is read and how long it lets the pass sleep. */
  lemma QuietTriggersDecide(c: Config, a: Statuses, b: Statuses, now: int, uevents: set<string>, tried: set<string>,
                            done: set<string>, pressed: set<string>, s: string)
    requires Chosen(c, a, now, uevents, tried, done, pressed) && PressedSoFar(c, a, b, done, pressed)
    requires s in done && s in c.sensors && s in a && c.sensors[s].isWatch
    requires c.sensors[s].virtual.Some? ==>
               forall x :: x in c.sensors[s].virtual.value.triggers ==> Throttled(a, x) == Throttled(b, x)
    ensures s in pressed <==> Pressed(c.sensors[s], a)
    ensures s in tried <==> a[s].override.pendingUpdate || Due(c.sensors[s], a, s, a[s], now, uevents)
  {
    hide Notified;
    assert PressedRight(c.sensors[s], a, b, s in pressed);
  }

  lemma MoveOn(all: set<string>, todo: set<string>, s: string)
    requires s in todo && todo <= all
    ensures all - todo + {s} == all - (todo - {s}) && todo - {s} <= all && s !in all - todo
  {
  }

  lemma NothingChanged(c: Config, now: int, st: Statuses, h: map<string, seq<real>>)
    requires Explained(c, st, h)
    ensures UnderWay(c, now, st, st, h, h, {}, {}, {}, {}, [], None)
  {
  }

  lemma PassBounds(c: Config, now: int, a: Statuses, b: Statuses, ha: map<string, seq<real>>, hb: map<string, seq<real>>,
                   tried: set<string>, failed: set<string>, done: set<string>, s: string)
    requires PassSoFar(c, now, a, b, ha, hb, tried, failed, done) && s in c.sensors && s !in done
    ensures failed <= tried <= done && Untouched(a, b, ha, hb, s)
    ensures s in a && s in b && a[s].severity == b[s].severity && SameButCache(a[s], b[s])
  {
    hide Passed;
    assert Settled(c, now, a, b, ha, hb, s in done, s in tried, s in failed, s);
  }

  lemma OthersUntouched(c: Config, b: Statuses, b': Statuses, hb: map<string, seq<real>>, hb': map<string, seq<real>>, s: string)
    requires forall x :: x in c.sensors && x != s ==> Untouched(b, b', hb, hb', x)
    requires b.Keys == b'.Keys == c.sensors.Keys
    ensures forall x :: x in b && x != s ==> SameButCache(b[x], b'[x]) && b'[x].severity == b[x].severity
  {
    forall x | x in b && x != s
      ensures SameButCache(b[x], b'[x]) && b'[x].severity == b[x].severity
    {
      assert Untouched(b, b', hb, hb', x);
    }
  }

  lemma NotDueWasUpdated(info: SensorInfo, st: Statuses, s: string, x: SensorStatus, now: int, uevents: set<string>)
    requires !Due(info, st, s, x, now, uevents)
    ensures x.lastUpdate.Some?
  {
  }

  // ---------- A whole pass ----------

  /** How far a pass has come: the sensors that were read, whose read failed, that were read before the rails were
      refreshed, that had a throttled trigger at their turn, and that have had their turn; and the statuses when the
      rails were refreshed. */
  datatype Progress = Progress(tried: set<string>, failed: set<string>, early: set<string>, pressed: set<string>,
                               done: set<string>, mid: Statuses)

  ghost predicate Going(c: Config, w: World, w': World, now: int, uevents: set<string>, a: Statuses, b: Statuses,
                        ha: map<string, seq<real>>, hb: map<string, seq<real>>, p: Progress, refreshed: bool,
                        temps: seq<Notification>, sleep: Option<int>)
    requires Acyclic(c) && PowerKnown(c, w) && PowerKnown(c, w')
  {
    && UnderWay(c, now, a, b, ha, hb, p.tried, p.failed, p.done, p.pressed, temps, sleep)
    && Chosen(c, a, now, uevents, p.tried, p.done, p.pressed)
    && RefreshedOnce(p.tried, p.early, p.failed, refreshed)
    && (!refreshed ==> p.early == p.tried && p.mid == b)
    && (uevents == {} ==> Phases(c, w, w', now, a, p.mid, b, ha, hb, p.tried, p.early, p.failed))
  }

  function Starting(st: Statuses): Progress {
    Progress({}, {}, {}, {}, {}, st)
  }

  /** After a turn that left the statuses at b'. */
  function TurnTaken(p: Progress, s: string, t: bool, f: bool, pressed: bool, refreshed: bool, b': Statuses): Progress {
    var tried := p.tried + (if t then {s} else {});
    Progress(tried, p.failed + (if f then {s} else {}), if refreshed then p.early else tried,
             p.pressed + (if pressed then {s} else {}), p.done + {s}, if refreshed then p.mid else b')
  }

  lemma Begins(c: Config, w: World, w': World, now: int, uevents: set<string>, st: Statuses, h: map<string, seq<real>>)
    requires Acyclic(c) && PowerKnown(c, w) && PowerKnown(c, w') && Explained(c, st, h)
    ensures Going(c, w, w', now, uevents, st, st, h, h, Starting(st), false, [], None)
  {
    hide UnderWay, Chosen, RefreshedOnce, Phases, Explained, Acyclic, PowerKnown;
    NothingChanged(c, now, st, h);
    NothingPhased(c, w, w', now, st, h);
    NothingChosen(c, st, now, uevents);
    NothingRefreshed();
  }

  lemma Skips(c: Config, w: World, w': World, now: int, uevents: set<string>, a: Statuses, b: Statuses,
              ha: map<string, seq<real>>, hb: map<string, seq<real>>, p: Progress, refreshed: bool,
              temps: seq<Notification>, sleep: Option<int>, s: string)
    requires Acyclic(c) && PowerKnown(c, w) && PowerKnown(c, w') && s in c.sensors && !c.sensors[s].isWatch
    requires Going(c, w, w', now, uevents, a, b, ha, hb, p, refreshed, temps, sleep)
    ensures Going(c, w, w', now, uevents, a, b, ha, hb, p.(done := p.done + {s}), refreshed, temps, sleep)
  {
    hide UnderWay, Chosen, RefreshedOnce, Phases, Acyclic, PowerKnown;
    ChosenSkips(c, a, now, uevents, p.tried, p.done, p.pressed, s);
    SkipUnwatched(c, now, a, b, ha, hb, p.tried, p.failed, p.done, p.pressed, temps, sleep, s);
  }

  /** One turn keeps everything. */
  lemma GoesOn(c: Config, w: World, w': World, now: int, uevents: set<string>, a: Statuses, b: Statuses, b': Statuses,
               ha: map<string, seq<real>>, hb: map<string, seq<real>>, hb': map<string, seq<real>>, p: Progress,
               refreshed: bool, temps: seq<Notification>, sleep: Option<int>,
               s: string, t: bool, f: bool, vote: Option<int>, change: Option<Notification>)
    requires Acyclic(c) && PowerKnown(c, w) && PowerKnown(c, w')
    requires Going(c, w, w', now, uevents, a, b, ha, hb, p, refreshed, temps, sleep)
    requires b.Keys == b'.Keys == c.sensors.Keys && s in c.sensors && s !in p.done && c.sensors[s].isWatch
    requires forall x :: x in c.sensors && x != s ==> Untouched(b, b', hb, hb', x)
    requires s in hb && s in hb' && Passed(c.sensors[s], now, b[s], b'[s], hb[s], hb'[s], t, f) && (f ==> t)
    requires t <==> b[s].override.pendingUpdate || Due(c.sensors[s], b, s, b[s], now, uevents)
    requires Stamped(b, b', now)
    requires
      var world, bypass := if refreshed then w' else w, Bypasses(c.sensors[s], s, b[s], uevents);
      && ReadsKept(c, world, b, b', now, bypass)
      && (t && ReadOnce(c, bypass, s) ==> EvaluatedAt(c, world, GivenTo(c, b, now, bypass), hb[s], hb'[s], f, s))
    requires change.Some? <==> b'[s].severity != b[s].severity
    requires change.Some? ==> change.value.name == s && change.value.severity == b'[s].severity
    requires change.Some? ==> hb'[s] != [] && change.value.value == hb'[s][|hb'[s]| - 1]
    requires vote.None? <==> f
    requires vote.Some? ==> WakeAt(c.sensors[s], b[s], b'[s], Pressed(c.sensors[s], b)) == Some(now + vote.value)
    ensures Going(c, w, w', now, uevents, a, b', ha, hb', TurnTaken(p, s, t, f, Pressed(c.sensors[s], b), refreshed, b'),
                  refreshed || (t && !f), Extended(temps, change), Sooner(sleep, vote))
  {
    hide UnderWay, Chosen, RefreshedOnce, Phases, Acyclic, PowerKnown, Untouched, Passed, Due, Stamped, Bypasses, ReadsKept,
         ReadOnce, EvaluatedAt, GivenTo, WakeAt, Pressed, PassSoFar, Changes, Carried, VotesCast, PressedSoFar, Extended, Sooner;
    Arrived(c, now, a, b, ha, hb, p.tried, p.failed, p.done, p.pressed, temps, sleep);
    PassBounds(c, now, a, b, ha, hb, p.tried, p.failed, p.done, s);
    ChosenStep(c, a, b, now, uevents, p.tried, p.done, p.pressed, s, t);
    EarlyWereTried(p.tried, p.early, p.failed, refreshed);
    if uevents == {} {
      Turn(c, w, w', now, a, p.mid, b, b', ha, hb, hb', p.tried, p.early, p.failed, p.done, uevents, refreshed, s, t, f);
    }
    Advance(c, now, a, b, b', ha, hb, hb', p.tried, p.failed, p.done, p.pressed, temps, sleep, s, t, f, vote, change);
    RefreshStep(p.tried, p.early, p.failed, refreshed, s, t, f);
  }

  /** What a finished pass has done: to each sensor, which ones it read and in which world it evaluated them, how long
      it lets the watcher sleep, and what there was to report. */
  ghost predicate PassDone(c: Config, w: World, w': World, now: int, uevents: set<string>, a: Statuses, b: Statuses,
                           ha: map<string, seq<real>>, hb: map<string, seq<real>>, p: Progress,
                           temps: seq<Notification>, sleep: Option<int>)
    requires Acyclic(c) && PowerKnown(c, w) && PowerKnown(c, w')
  {
    && p.done == b.Keys && PassSoFar(c, now, a, b, ha, hb, p.tried, p.failed, p.done)
    && PressedSoFar(c, a, b, p.done, p.pressed) && Chosen(c, a, now, uevents, p.tried, p.done, p.pressed)
    && VotesCast(c, a, b, now, p.done, p.failed, p.pressed, sleep)
    && Changes(a, b, temps) && Carried(hb, temps)
    && (exists refreshed: bool :: RefreshedOnce(p.tried, p.early, p.failed, refreshed))
    && (uevents == {} ==> Phases(c, w, w', now, a, p.mid, b, ha, hb, p.tried, p.early, p.failed))
    && (uevents == {} && NoRails(c) && w.files == w'.files ==>
          AllEvaluated(c, w, GivenTo(c, a, now, false), ha, hb, p.tried, p.failed))
  }

  lemma Ends(c: Config, w: World, w': World, now: int, uevents: set<string>, a: Statuses, b: Statuses,
             ha: map<string, seq<real>>, hb: map<string, seq<real>>, p: Progress, refreshed: bool,
             temps: seq<Notification>, sleep: Option<int>)
    requires Acyclic(c) && PowerKnown(c, w) && PowerKnown(c, w') && p.done == b.Keys
    requires Going(c, w, w', now, uevents, a, b, ha, hb, p, refreshed, temps, sleep)
    ensures PassDone(c, w, w', now, uevents, a, b, ha, hb, p, temps, sleep) && Changes(a, b, temps)
  {
    hide Chosen, RefreshedOnce, Phases, Acyclic, PowerKnown, PassSoFar, Changes, Carried, VotesCast, PressedSoFar, NoRails,
         AllEvaluated, GivenTo;
    if uevents == {} && NoRails(c) && w.files == w'.files {
      WithoutRailsOnePhase(c, w, w', now, a, p.mid, b, ha, hb, p.tried, p.early, p.failed);
    }
  }
}
