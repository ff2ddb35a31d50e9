/** DisplayStateResidencyDataProvider (powerstats/DisplayStateResidencyDataProvider.cpp): time spent in
    and entries into each display state. Each call holds the lock, but an update reads the clock before
    it gets the lock, so its time may lie before that of a query that went first. */
module DisplayResidency {
  import opened Options

  datatype Residency = Residency(totalTimeInStateMs: int, totalStateEntryCount: nat, lastEntryTimestampMs: int)

  /** current is None where the source holds -1. */
  datatype Tracker = Tracker(residencies: seq<Residency>, current: Option<nat>) {
    predicate Valid() {
      current.Some? ==> current.value < |residencies|
    }
  }

  /** An update that recognised a state, or none, and a query; both with the time they read. */
  datatype Event = Update(now: int, state: Option<nat>) | Query(now: int)

  function Left(t: Tracker, now: int): (r: seq<Residency>)
    requires t.Valid()
    ensures |r| == |t.residencies|
  {
    match t.current
    case None => t.residencies
    case Some(c) =>
      var x := t.residencies[c];
      t.residencies[c := x.(totalTimeInStateMs := x.totalTimeInStateMs + (now - x.lastEntryTimestampMs))]
  }

  function Entered(t: Tracker, i: nat, now: int): (t': Tracker)
    requires t.Valid() && i < |t.residencies|
    ensures t'.Valid() && |t'.residencies| == |t.residencies|
  {
    var r := Left(t, now);
    var x := r[i];
    Tracker(r[i := x.(totalStateEntryCount := x.totalStateEntryCount + 1, lastEntryTimestampMs := now)], Some(i))
  }

  function Start(n: nat): (t: Tracker)
    ensures t.Valid() && |t.residencies| == n
  {
    Tracker(seq(n, _ => Residency(0, 0, 0)), None)
  }

  predicate IsLog(n: nat, log: seq<Event>) {
    forall i :: 0 <= i < |log| && log[i].Update? && log[i].state.Some? ==> log[i].state.value < n
  }

  function Step(t: Tracker, e: Event): (t': Tracker)
    requires t.Valid() && (e.Update? && e.state.Some? ==> e.state.value < |t.residencies|)
    ensures t'.Valid() && |t'.residencies| == |t.residencies|
  {
    if e.Update? && e.state.Some? then Entered(t, e.state.value, e.now) else t
  }

  function After(n: nat, log: seq<Event>): (t: Tracker)
    requires IsLog(n, log)
    ensures t.Valid() && |t.residencies| == n
  {
    if log == [] then Start(n) else Step(After(n, log[..|log| - 1]), log[|log| - 1])
  }

  // ---------- Sums ----------

  function Time(r: seq<Residency>): int {
    if r == [] then 0 else Time(r[..|r| - 1]) + r[|r| - 1].totalTimeInStateMs
  }

  function Entries(r: seq<Residency>): nat {
    if r == [] then 0 else Entries(r[..|r| - 1]) + r[|r| - 1].totalStateEntryCount
  }

  lemma {:induction false} SumsAfterChange(r: seq<Residency>, i: nat, x: Residency)
    requires i < |r|
    ensures Time(r[i := x]) == Time(r) - r[i].totalTimeInStateMs + x.totalTimeInStateMs
    ensures Entries(r[i := x]) == Entries(r) - r[i].totalStateEntryCount + x.totalStateEntryCount
  {
    var n := |r| - 1;
    if i == n {
      assert r[i := x][..n] == r[..n];
    } else {
      assert r[i := x][..n] == r[..n][i := x];
      SumsAfterChange(r[..n], i, x);
    }
  }

  lemma {:induction false} SumsAtStart(n: nat)
    ensures Time(Start(n).residencies) == 0 && Entries(Start(n).residencies) == 0
  {
    if n > 0 {
      SumsAtStart(n - 1);
      assert Start(n).residencies[..n - 1] == Start(n - 1).residencies;
    }
  }

  predicate Recognised(e: Event) {
    e.Update? && e.state.Some?
  }

  /** How many updates recognised a state. */
  function Recognitions(log: seq<Event>): nat {
    if log == [] then 0 else Recognitions(log[..|log| - 1]) + if Recognised(log[|log| - 1]) then 1 else 0
  }

  /** When the display first entered a state. */
  function FirstEntry(log: seq<Event>): Option<int> {
    if log == [] then None
    else
      var before := FirstEntry(log[..|log| - 1]);
      var e := log[|log| - 1];
      if before.None? && Recognised(e) then Some(e.now) else before
  }

  /** The reported times add up to the time since the first entry, the entries to the recognised updates. */
  lemma {:induction false} AddsUp(n: nat, log: seq<Event>, now: int)
    requires IsLog(n, log)
    ensures var t := After(n, log);
            && (t.current.Some? <==> FirstEntry(log).Some?)
            && Time(Left(t, now)) == (if FirstEntry(log).Some? then now - FirstEntry(log).value else 0)
            && Entries(Left(t, now)) == Recognitions(log)
  {
    if log == [] {
      SumsAtStart(n);
    } else {
      var k := |log| - 1;
      var e, t := log[k], After(n, log[..k]);
      AddsUp(n, log[..k], if Recognised(e) then e.now else now);
      if Recognised(e) {
        var i := e.state.value;
        var r := Left(t, e.now);
        var x := r[i].(totalStateEntryCount := r[i].totalStateEntryCount + 1, lastEntryTimestampMs := e.now);
        SumsAfterChange(r, i, x);
        SumsAfterChange(r[i := x], i, x.(totalTimeInStateMs := x.totalTimeInStateMs + (now - e.now)));
      }
    }
  }

  // ---------- Never decreasing ----------

  function Shown(t: Tracker, now: int, s: nat): int
    requires t.Valid() && s < |t.residencies|
  {
    Left(t, now)[s].totalTimeInStateMs
  }

  // ---------- Each state by itself ----------

  /** How many updates recognised state s. */
  function EntriesInto(log: seq<Event>, s: nat): nat {
    if log == [] then 0
    else
      var e := log[|log| - 1];
      EntriesInto(log[..|log| - 1], s) + if Recognised(e) && e.state == Some(s) then 1 else 0
  }

  /** The time from each update that recognised s to the next one that recognised a state, or to `until`. */
  function SpentIn(log: seq<Event>, s: nat, until: int): int {
    if log == [] then 0
    else
      var e, before := log[|log| - 1], log[..|log| - 1];
      if !Recognised(e) then SpentIn(before, s, until)
      else SpentIn(before, s, e.now) + if e.state == Some(s) then until - e.now else 0
  }

  /** The state that was recognised last. */
  function Latest(log: seq<Event>): Option<nat> {
    if log == [] then None
    else if Recognised(log[|log| - 1]) then log[|log| - 1].state
    else Latest(log[..|log| - 1])
  }

  /** When s was last recognised, 0 before the first time. */
  function LastEntry(log: seq<Event>, s: nat): int {
    if log == [] then 0
    else if Recognised(log[|log| - 1]) && log[|log| - 1].state == Some(s) then log[|log| - 1].now
    else LastEntry(log[..|log| - 1], s)
  }

  /** What is reported of a state is its own: the time spent in it, how often it was entered and when last. */
  lemma {:induction false} StateReport(n: nat, log: seq<Event>, s: nat, now: int)
    requires IsLog(n, log) && s < n
    ensures
      var t := After(n, log);
      && t.current == Latest(log)
      && Shown(t, now, s) == SpentIn(log, s, now)
      && Left(t, now)[s].totalStateEntryCount == EntriesInto(log, s)
      && Left(t, now)[s].lastEntryTimestampMs == LastEntry(log, s)
  {
    if log != [] {
      var k := |log| - 1;
      var e := log[k];
      StateReport(n, log[..k], s, if Recognised(e) then e.now else now);
    }
  }

  predicate Changes(t: Tracker, e: Event) {
    Recognised(e) && t.current.Some? && t.current != e.state
  }

  /** Every time shown after the update is at least what a query at q showed before it. */
  ghost predicate Kept(t: Tracker, q: int, e: Event)
    requires t.Valid() && Recognised(e) && e.state.value < |t.residencies|
  {
    forall s: nat, x: int {:trigger Shown(Step(t, e), x, s)} :: s < |t.residencies| && q <= x && e.now <= x ==>
      Shown(t, q, s) <= Shown(Step(t, e), x, s)
  }

  /** One update after a query at q takes shown time away if and only if it changes the state and its
      own time lies before the query's. */
  lemma GapLaw(t: Tracker, q: int, e: Event)
    requires t.Valid() && Recognised(e) && e.state.value < |t.residencies|
    ensures Kept(t, q, e) <==> !(Changes(t, e) && e.now < q)
  {
    if Changes(t, e) && e.now < q {
      var c := t.current.value;
      assert Shown(Step(t, e), q, c) < Shown(t, q, c);
    }
  }

  /** One thread updates, and a query reads the clock while it holds the lock. */
  ghost predicate InOrder(log: seq<Event>) {
    forall i, j :: 0 <= i < j < |log| && (log[j].Query? || log[i].Update?) ==> log[i].now <= log[j].now
  }

  /** Update k is the first after i that recognised a state other than c. */
  predicate Departs(log: seq<Event>, i: nat, k: nat, c: nat)
    requires i <= k < |log|
  {
    Recognised(log[k]) && log[k].state != Some(c) && Stays(log, i, k, c)
  }

  predicate Stays(log: seq<Event>, i: nat, k: nat, c: nat)
    requires i <= k <= |log|
  {
    forall j :: i <= j < k && Recognised(log[j]) ==> log[j].state == Some(c)
  }

  /** Query i and the update that first leaves the state it saw come in the order of their times. */
  predicate PunctualAt(n: nat, log: seq<Event>, i: nat, k: nat)
    requires IsLog(n, log) && i < k < |log|
  {
    var t := After(n, log[..i]);
    log[i].Query? && t.current.Some? && Departs(log, i, k, t.current.value) ==> log[i].now <= log[k].now
  }

  ghost predicate Punctual(n: nat, log: seq<Event>)
    requires IsLog(n, log)
  {
    forall i, k :: 0 <= i < k < |log| ==> PunctualAt(n, log, i, k)
  }

  predicate SeenBy(log: seq<Event>, k: nat, x: int)
    requires k <= |log|
  {
    forall j :: 0 <= j < k ==> log[j].now <= x
  }

  /** What query i showed of s is not taken back by time x, after the first k events. */
  predicate KeptAt(n: nat, log: seq<Event>, i: nat, k: nat, x: int, s: nat)
    requires IsLog(n, log) && i < k <= |log| && s < n
  {
    log[i].Query? && SeenBy(log, k, x) ==> Shown(After(n, log[..i]), log[i].now, s) <= Shown(After(n, log[..k]), x, s)
  }

  /** No reported time ever goes down, whenever the next query comes. */
  ghost predicate NeverDecreases(n: nat, log: seq<Event>)
    requires IsLog(n, log)
  {
    forall i, k, x, s: nat :: 0 <= i < k <= |log| && s < n ==> KeptAt(n, log, i, k, x, s)
  }

  lemma AfterStep(n: nat, log: seq<Event>, k: nat)
    requires IsLog(n, log) && 0 < k <= |log|
    ensures After(n, log[..k]) == Step(After(n, log[..k - 1]), log[k - 1])
  {
    assert log[..k][..k - 1] == log[..k - 1];
  }

  lemma GoesOn(t: Tracker, q: int, x: int, e: Event, s: nat)
    requires t.Valid() && s < |t.residencies| && (Recognised(e) ==> e.state.value < |t.residencies|)
    requires q <= x && (e.Update? ==> e.now <= x) && !(Changes(t, e) && e.now < q)
    ensures Shown(t, q, s) <= Shown(Step(t, e), x, s)
  {
    if Recognised(e) {
      GapLaw(t, q, e);
    }
  }

  /** From i on, no state is left at a time before q. */
  ghost predicate LeftSince(n: nat, log: seq<Event>, i: nat, k: nat, q: int)
    requires IsLog(n, log) && i <= k <= |log|
  {
    forall j :: i <= j < k ==> LeftAt(n, log, j, q)
  }

  predicate LeftAt(n: nat, log: seq<Event>, j: nat, q: int)
    requires IsLog(n, log) && j < |log|
  {
    Changes(After(n, log[..j]), log[j]) ==> q <= log[j].now
  }

  lemma {:induction false} ShownGrows(n: nat, log: seq<Event>, i: nat, k: nat, q: int, x: int, s: nat)
    requires IsLog(n, log) && InOrder(log) && i <= k <= |log| && s < n && LeftSince(n, log, i, k, q)
    requires q <= x && forall j :: 0 <= j < k && log[j].Update? ==> log[j].now <= x
    ensures Shown(After(n, log[..i]), q, s) <= Shown(After(n, log[..k]), x, s)
    decreases k
  {
    hide After, Left, Step;
    if k == i {
      ShownLater(After(n, log[..i]), q, x, s);
    } else {
      var e, t := log[k - 1], After(n, log[..k - 1]);
      AfterStep(n, log, k);
      assert LeftAt(n, log, k - 1, q);
      var before := if Changes(t, e) then e.now else x;
      ShownGrows(n, log, i, k - 1, q, before, s);
      GoesOn(t, before, x, e, s);
    }
  }

  lemma ShownLater(t: Tracker, q: int, x: int, s: nat)
    requires t.Valid() && s < |t.residencies| && q <= x
    ensures Shown(t, q, s) <= Shown(t, x, s)
    ensures t.current.None? ==> Shown(t, q, s) == Shown(t, x, s)
    ensures t.current == Some(s) ==> Shown(t, x, s) - Shown(t, q, s) == x - q
  {
  }

  /** While only the current state is entered again, every reading stays the same. */
  lemma {:induction false} StayingShows(n: nat, log: seq<Event>, i: nat, k: nat, c: nat, x: int, s: nat)
    requires IsLog(n, log) && i <= k <= |log| && s < n
    requires After(n, log[..i]).current == Some(c) && Stays(log, i, k, c)
    ensures After(n, log[..k]).current == Some(c)
    ensures Shown(After(n, log[..k]), x, s) == Shown(After(n, log[..i]), x, s)
    decreases k
  {
    hide After;
    if i < k {
      StayingShows(n, log, i, k - 1, c, x, s);
      AfterStep(n, log, k);
    }
  }

  lemma {:induction false} StillUnknown(n: nat, log: seq<Event>, i: nat, k: nat)
    requires IsLog(n, log) && i <= k <= |log| && After(n, log[..i]).current.None?
    requires forall j :: i <= j < k ==> !Recognised(log[j])
    ensures After(n, log[..k]).current.None?
    decreases k
  {
    hide After;
    if i < k {
      StillUnknown(n, log, i, k - 1);
      AfterStep(n, log, k);
    }
  }

  /** The first update in i..k that departs from c, k if there is none. */
  lemma FirstDeparture(log: seq<Event>, i: nat, k: nat, c: nat) returns (d: nat)
    requires i <= k <= |log|
    ensures i <= d <= k && Stays(log, i, d, c) && (d < k ==> Departs(log, i, d, c))
  {
    d := i;
    while d < k && !(Recognised(log[d]) && log[d].state != Some(c))
      invariant i <= d <= k && Stays(log, i, d, c)
    {
      d := d + 1;
    }
  }

  lemma FirstRecognised(log: seq<Event>, i: nat, k: nat) returns (d: nat)
    requires i <= k <= |log|
    ensures i <= d <= k && (forall j :: i <= j < d ==> !Recognised(log[j])) && (d < k ==> Recognised(log[d]))
  {
    d := i;
    while d < k && !Recognised(log[d])
      invariant i <= d <= k && forall j :: i <= j < d ==> !Recognised(log[j])
    {
      d := d + 1;
    }
  }

  /** A query that saw state c: a punctual first departure makes every later one punctual. */
  lemma PunctualLeaves(n: nat, log: seq<Event>, i: nat, k: nat, c: nat)
    requires IsLog(n, log) && InOrder(log) && Punctual(n, log) && i < k <= |log|
    requires log[i].Query? && After(n, log[..i]).current == Some(c)
    ensures LeftSince(n, log, i, k, log[i].now)
  {
    hide After;
    forall j | i <= j < k
      ensures LeftAt(n, log, j, log[i].now)
    {
      var d := FirstDeparture(log, i, j, c);
      if d < j {
        assert PunctualAt(n, log, i, d);
      } else if j > i {
        assert PunctualAt(n, log, i, j);
        if n > 0 {
          StayingShows(n, log, i, j, c, 0, 0);
        }
      }
    }
  }

  /** A query before the first entry showed nothing that could be taken back. */
  lemma UnknownGrows(n: nat, log: seq<Event>, i: nat, k: nat, x: int, s: nat)
    requires IsLog(n, log) && InOrder(log) && i < k <= |log| && s < n
    requires After(n, log[..i]).current.None? && SeenBy(log, k, x)
    ensures Shown(After(n, log[..i]), log[i].now, s) <= Shown(After(n, log[..k]), x, s)
  {
    hide After, Left;
    var d := FirstRecognised(log, i, k);
    var q := if d < k then log[d].now else x;
    forall j | i <= j < k
      ensures LeftAt(n, log, j, q)
    {
      if j <= d {
        StillUnknown(n, log, i, j);
      }
    }
    ShownGrows(n, log, i, k, q, x, s);
    var t, lo := After(n, log[..i]), if q < log[i].now then q else log[i].now;
    ShownLater(t, lo, q, s);
    ShownLater(t, lo, log[i].now, s);
  }

  lemma PunctualKeeps(n: nat, log: seq<Event>, i: nat, k: nat, x: int, s: nat)
    requires IsLog(n, log) && InOrder(log) && Punctual(n, log) && i < k <= |log| && s < n
    ensures KeptAt(n, log, i, k, x, s)
  {
    hide After, Punctual;
    if log[i].Query? && SeenBy(log, k, x) {
      var t := After(n, log[..i]);
      if t.current.None? {
        UnknownGrows(n, log, i, k, x, s);
      } else {
        PunctualLeaves(n, log, i, k, t.current.value);
        ShownGrows(n, log, i, k, log[i].now, x, s);
      }
    }
  }

  lemma {:induction false} LatestTime(log: seq<Event>, k: nat) returns (x: int)
    requires k <= |log|
    ensures SeenBy(log, k, x)
  {
    if k == 0 {
      x := 0;
    } else {
      x := LatestTime(log, k - 1);
      if x < log[k - 1].now {
        x := log[k - 1].now;
      }
    }
  }

  lemma LeavingShows(t: Tracker, e: Event, x: int)
    requires t.Valid() && Changes(t, e) && e.state.value < |t.residencies|
    ensures Shown(Step(t, e), x, t.current.value) == Shown(t, e.now, t.current.value)
  {
  }

  /** A departure timed before the query takes back the difference. */
  lemma LateDepartureTakes(n: nat, log: seq<Event>, i: nat, k: nat)
    requires IsLog(n, log) && i < k < |log| && !PunctualAt(n, log, i, k)
    ensures !NeverDecreases(n, log)
  {
    hide After, Left;
    var c := After(n, log[..i]).current.value;
    var x := LatestTime(log, k + 1);
    StayingShows(n, log, i, k, c, log[k].now, c);
    AfterStep(n, log, k + 1);
    LeavingShows(After(n, log[..k]), log[k], x);
    ShownLater(After(n, log[..i]), log[k].now, log[i].now, c);
    assert !KeptAt(n, log, i, k + 1, x, c);
  }

  /** Over a run no reported time ever goes down if and only if, for every query, the first update that
      leaves the state it saw is timed no earlier than the query. */
  lemma ResidencyLaw(n: nat, log: seq<Event>)
    requires IsLog(n, log) && InOrder(log)
    ensures NeverDecreases(n, log) <==> Punctual(n, log)
  {
    hide PunctualAt, KeptAt;
    if Punctual(n, log) {
      forall i, k, x, s: nat | 0 <= i < k <= |log| && s < n
        ensures KeptAt(n, log, i, k, x, s)
      {
        PunctualKeeps(n, log, i, k, x, s);
      }
    } else {
      var i, k :| 0 <= i < k < |log| && !PunctualAt(n, log, i, k);
      LateDepartureTakes(n, log, i, k);
    }
  }

  /** Two queries of a punctual run. */
  lemma QueriesNeverDecrease(n: nat, log: seq<Event>, i: nat, j: nat, s: nat)
    requires IsLog(n, log) && InOrder(log) && Punctual(n, log)
    requires i < j < |log| && log[i].Query? && log[j].Query? && s < n
    ensures Shown(After(n, log[..i]), log[i].now, s) <= Shown(After(n, log[..j]), log[j].now, s)
  {
    PunctualKeeps(n, log, i, j, log[j].now, s);
  }

  /** An update that waits for the lock while a query goes first takes four units back. */
  lemma LateUpdateTakes()
    ensures
      var log := [Update(0, Some(0)), Query(10), Update(6, Some(1)), Query(10)];
      && IsLog(2, log) && InOrder(log) && !Punctual(2, log)
      && Shown(After(2, log[..1]), 10, 0) == 10 && Shown(After(2, log[..3]), 10, 0) == 6
  {
    var log := [Update(0, Some(0)), Query(10), Update(6, Some(1)), Query(10)];
    AfterStep(2, log, 1);
    AfterStep(2, log, 2);
    AfterStep(2, log, 3);
    assert log[..0] == [];
    hide After;
    assert !PunctualAt(2, log, 1, 2);
  }

  // ---------- The provider ----------

  predicate StandsAt(data: string, i: nat, state: string) {
    i + |state| <= |data| && data[i..i + |state|] == state
  }

  predicate Contains(data: string, state: string) {
    exists i :: 0 <= i <= |data| && StandsAt(data, i, state)
  }

  /** The first state whose name is in the data. */
  function Find(states: seq<string>, data: string): (r: Option<nat>)
    ensures match r
            case None => forall i :: 0 <= i < |states| ==> !Contains(data, states[i])
            case Some(k) => && k < |states| && Contains(data, states[k])
                            && forall i :: 0 <= i < k ==> !Contains(data, states[i])
  {
    if states == [] then None
    else if Contains(data, states[0]) then Some(0)
    else match Find(states[1..], data)
         case None => None
         case Some(k) => Some(k + 1)
  }

  lemma Logged(n: nat, log: seq<Event>, e: Event)
    requires IsLog(n, log) && (Recognised(e) ==> e.state.value < n)
    ensures IsLog(n, log + [e]) && After(n, log + [e]) == Step(After(n, log), e)
  {
    assert (log + [e])[..|log|] == log;
  }

  class DataProvider {
    const states: seq<string>
    var residencies: seq<Residency>
    var curState: int
    ghost var log: seq<Event>

    ghost function Now(): Tracker
      reads this
    {
      Tracker(residencies, if curState > -1 then Some(curState) else None)
    }

    ghost predicate Valid()
      reads this
    {
      curState >= -1 && IsLog(|states|, log) && Now() == After(|states|, log)
    }

    constructor (states: seq<string>)
      ensures Valid() && this.states == states && log == []
    {
      this.states := states;
      residencies := seq(|states|, _ => Residency(0, 0, 0));
      curState := -1;
      log := [];
    }

    /** The body of the match: leaves the current state and enters state i. */
    method Enter(i: nat, now: int)
      requires i < |states| == |residencies| && -1 <= curState < |states|
      modifies this`residencies, this`curState
      ensures Now() == Entered(old(Now()), i, now) && curState >= -1
    {
      if curState > -1 {
        var r := residencies[curState];
        residencies := residencies[curState :=
          r.(totalTimeInStateMs := r.totalTimeInStateMs + (now - r.lastEntryTimestampMs))];
      }
      curState := i;
      residencies := residencies[i := residencies[i].(totalStateEntryCount := residencies[i].totalStateEntryCount + 1)];
      residencies := residencies[i := residencies[i].(lastEntryTimestampMs := now)];
    }

    /** data is None if the display state could not be read. */
    method UpdateStats(now: int, data: Option<string>)
      requires Valid()
      modifies this
      ensures Valid()
      ensures log == old(log) + [Update(now, if data.Some? then Find(states, data.value) else None)]
    {
      hide After, Entered, Contains;
      ghost var e := Update(now, if data.Some? then Find(states, data.value) else None);
      Logged(|states|, log, e);
      log := log + [e];
      if data.None? {
        return;
      }
      for i := 0 to |states|
        invariant Now() == old(Now()) && curState == old(curState) && log == old(log) + [e]
        invariant forall j :: 0 <= j < i ==> !Contains(data.value, states[j])
      {
        if Contains(data.value, states[i]) {
          assert e.state == Some(i);
          Enter(i, now);
          return;
        }
      }
      assert e.state == None;
    }

    method GetResults(now: int) returns (result: seq<Residency>)
      requires Valid()
      modifies this`log
      ensures Valid() && log == old(log) + [Query(now)]
      ensures result == Left(After(|states|, old(log)), now)
      ensures Time(result) == if FirstEntry(old(log)).Some? then now - FirstEntry(old(log)).value else 0
      ensures Entries(result) == Recognitions(old(log))
    {
      hide After;
      AddsUp(|states|, log, now);
      Logged(|states|, log, Query(now));
      result := residencies;
      if curState > -1 {
        var r := result[curState];
        result := result[curState := r.(totalTimeInStateMs := r.totalTimeInStateMs + (now - r.lastEntryTimestampMs))];
      }
      log := log + [Query(now)];
    }
  }
}
