/** What holds of the battery defender over whole runs and across restarts. */
module BatteryDefenderRuns {
  import opened BatteryDefender

  /** The device after the first n updates. */
  function After(d: Device, ins: seq<Input>, n: nat): Device
    requires n <= |ins|
  {
    if n == 0 then d else Updated(After(d, ins, n - 1), ins[n - 1])
  }

  predicate Charging(s: State) {
    s == Connected || s == Active
  }

  predicate Off(s: State) {
    s == Disabled || s == Disconnected
  }

  // ---------- Where charger-present time comes from ----------

  /** Update k (counted from 1) wiped the timers. */
  predicate Clears(d: Device, ins: seq<Input>, k: nat)
    requires 1 <= k <= |ins|
  {
    Off(After(d, ins, k - 1).mem.state) || Off(After(d, ins, k).mem.state)
  }

  /** The last update up to n that wiped the timers, 0 if there was none. */
  function LastClear(d: Device, ins: seq<Input>, n: nat): (k: nat)
    requires n <= |ins|
    ensures k <= n
  {
    if n == 0 then 0 else if Clears(d, ins, n) then n else LastClear(d, ins, n - 1)
  }

  lemma {:induction false} LastClearIs(d: Device, ins: seq<Input>, n: nat)
    requires n <= |ins|
    ensures var k := LastClear(d, ins, n); k > 0 ==> Clears(d, ins, k)
    ensures forall j :: LastClear(d, ins, n) < j <= n ==> !Clears(d, ins, j)
  {
    hide Updated, After;
    if n > 0 {
      LastClearIs(d, ins, n - 1);
    }
  }

  /** The battery counts as full from update j on. */
  predicate Fills(d: Device, ins: seq<Input>, j: nat)
    requires 1 <= j <= |ins|
  {
    var before, after := After(d, ins, j - 1).mem, After(d, ins, j).mem;
    || (before.state == Connected && ins[j - 1].level >= ins[j - 1].triggerLevel)
    || (before.state != after.state && (after.state == Active || (after.state == Connected && after.present > 0)))
  }

  ghost predicate FilledBetween(d: Device, ins: seq<Input>, k: nat, n: nat)
    requires n <= |ins|
  {
    exists j :: k < j <= n && Fills(d, ins, j)
  }

  /** The time update k adds: it ran while charging, with power, and the battery had been full since the last clear. */
  ghost function Credit(d: Device, ins: seq<Input>, k: nat): int
    requires 1 <= k <= |ins|
  {
    var before := After(d, ins, k - 1).mem;
    if Charging(before.state) && ins[k - 1].power && FilledBetween(d, ins, LastClear(d, ins, k - 1), k - 1)
    then ins[k - 1].time - before.timePrevious
    else 0
  }

  ghost function Credits(d: Device, ins: seq<Input>, k: nat, n: nat): int
    requires k <= n <= |ins|
    decreases n
  {
    if k == n then 0 else Credits(d, ins, k, n - 1) + Credit(d, ins, n)
  }

  /** What the first update of a process starts the timer from. */
  function Baseline(d: Device, ins: seq<Input>): int {
    if ins != [] && ins[0].power then d.disk.present else 0
  }

  predicate IsFresh(d: Device) {
    d == Fresh(d.disk, d.mem.timePrevious)
  }

  lemma InitIsLeft(d: Device, i: Input)
    ensures Updated(d, i).mem.state != Init
  {
  }

  lemma InitOnlyAtStart(d: Device, ins: seq<Input>, n: nat)
    requires IsFresh(d) && n <= |ins|
    ensures After(d, ins, n).mem.state == Init <==> n == 0
  {
    if n > 0 {
      InitIsLeft(After(d, ins, n - 1), ins[n - 1]);
    }
  }

  /** What one update does to the timer and the flag, without the state machine's detail. */
  lemma OneUpdate(d: Device, i: Input)
    ensures
      var before, after := d.mem, Updated(d, i).mem;
      var wiped := Off(before.state) || Off(after.state);
      var fills := || (before.state == Connected && i.level >= i.triggerLevel)
                   || (before.state != after.state &&
                       (after.state == Active || (after.state == Connected && after.present > 0)));
      && after.timePrevious == i.time
      && (after.reachedHigh <==> !wiped && (before.reachedHigh || fills))
      && after.present == (if wiped then 0
                           else if before.state == Init then (if i.power then d.disk.present else before.present)
                           else if i.power && before.reachedHigh then before.present + (i.time - before.timePrevious)
                           else before.present)
  {
  }

  lemma HighStep(d: Device, ins: seq<Input>, n: nat)
    requires IsFresh(d) && 1 <= n <= |ins|
    ensures After(d, ins, n).mem.reachedHigh <==>
            !Clears(d, ins, n) && (After(d, ins, n - 1).mem.reachedHigh || Fills(d, ins, n))
  {
    hide Updated;
    OneUpdate(After(d, ins, n - 1), ins[n - 1]);
  }

  lemma FilledExtends(d: Device, ins: seq<Input>, k: nat, n: nat)
    requires k < n <= |ins|
    ensures FilledBetween(d, ins, k, n) <==> FilledBetween(d, ins, k, n - 1) || Fills(d, ins, n)
  {
    if FilledBetween(d, ins, k, n - 1) {
      var j :| k < j <= n - 1 && Fills(d, ins, j);
      assert k < j <= n;
    }
  }

  /** The high-level flag means: full at some update since the last clear. */
  lemma {:induction false} ReachedHighMeansFilled(d: Device, ins: seq<Input>, n: nat)
    requires IsFresh(d) && n <= |ins|
    ensures After(d, ins, n).mem.reachedHigh <==> FilledBetween(d, ins, LastClear(d, ins, n), n)
  {
    if n > 0 {
      hide Updated;
      ReachedHighMeansFilled(d, ins, n - 1);
      HighStep(d, ins, n);
      FilledExtends(d, ins, LastClear(d, ins, n - 1), n);
    }
  }

  lemma TimeStep(d: Device, ins: seq<Input>, n: nat)
    requires IsFresh(d) && 1 <= n <= |ins|
    ensures
      After(d, ins, n).mem.present ==
      if Clears(d, ins, n) then 0
      else if n == 1 then Baseline(d, ins)
      else After(d, ins, n - 1).mem.present + Credit(d, ins, n)
  {
    hide Updated;
    OneUpdate(After(d, ins, n - 1), ins[n - 1]);
    InitOnlyAtStart(d, ins, n - 1);
    InitOnlyAtStart(d, ins, n);
    ReachedHighMeansFilled(d, ins, n - 1);
    assert n == 1 ==> After(d, ins, 0) == d;
  }

  /** The loaded baseline plus the credits of the updates since the last clear. */
  ghost function Tally(d: Device, ins: seq<Input>, n: nat): int
    requires n <= |ins|
  {
    var k := LastClear(d, ins, n);
    (if k == 0 then Baseline(d, ins) else 0) + Credits(d, ins, k, n)
  }

  /** Charger-present time is accounted for. */
  lemma {:induction false} TimeIsAccountedFor(d: Device, ins: seq<Input>, n: nat)
    requires IsFresh(d) && 1 <= n <= |ins|
    ensures After(d, ins, n).mem.present == Tally(d, ins, n)
  {
    hide Updated;
    TimeStep(d, ins, n);
    if n > 1 {
      TimeIsAccountedFor(d, ins, n - 1);
    } else {
      assert !Charging(After(d, ins, 0).mem.state);
      assert LastClear(d, ins, 0) == 0 && Credits(d, ins, 0, 0) == 0;
    }
  }

  // ---------- Where the active time and the length of a power gap come from ----------

  /** The intervals of the updates from k to n that found the defender active. */
  function ActiveIntervals(d: Device, ins: seq<Input>, k: nat, n: nat): int
    requires k <= n <= |ins|
    decreases n
  {
    if k == n then 0
    else
      var before := After(d, ins, n - 1).mem;
      ActiveIntervals(d, ins, k, n - 1) + if before.state == Active then ins[n - 1].time - before.timePrevious else 0
  }

  function ActiveBaseline(d: Device, ins: seq<Input>): int {
    if ins != [] && ins[0].power then d.disk.activeTime else 0
  }

  lemma OneActiveUpdate(d: Device, i: Input)
    ensures
      var before, after := d.mem, Updated(d, i).mem;
      after.activeTime ==
      if Off(before.state) || Off(after.state) then 0
      else if before.state == Init then (if i.power then d.disk.activeTime else before.activeTime)
      else if before.state == Active then before.activeTime + (i.time - before.timePrevious)
      else before.activeTime
  {
  }

  /** Active time is the loaded value plus the intervals spent active since the last clear. */
  lemma {:induction false} ActiveTimeIsAccountedFor(d: Device, ins: seq<Input>, n: nat)
    requires IsFresh(d) && 1 <= n <= |ins|
    ensures
      var k := LastClear(d, ins, n);
      After(d, ins, n).mem.activeTime == (if k == 0 then ActiveBaseline(d, ins) else 0) + ActiveIntervals(d, ins, k, n)
  {
    hide Updated;
    OneActiveUpdate(After(d, ins, n - 1), ins[n - 1]);
    InitOnlyAtStart(d, ins, n - 1);
    if n > 1 {
      ActiveTimeIsAccountedFor(d, ins, n - 1);
    } else {
      assert After(d, ins, 0) == d && LastClear(d, ins, 0) == 0 && ActiveIntervals(d, ins, 0, 0) == 0;
    }
  }

  /** The last update up to n that had power or wiped the timers. */
  function LastReset(d: Device, ins: seq<Input>, n: nat): (k: nat)
    requires n <= |ins|
    ensures k <= n
  {
    if n == 0 then 0 else if ins[n - 1].power || Clears(d, ins, n) then n else LastReset(d, ins, n - 1)
  }

  function ResetTime(d: Device, ins: seq<Input>, n: nat): int
    requires n <= |ins|
  {
    var k := LastReset(d, ins, n);
    if k == 0 then d.mem.timePrevious - d.mem.notPresent else ins[k - 1].time
  }

  lemma OneGapUpdate(d: Device, i: Input)
    ensures
      var before, after := d.mem, Updated(d, i).mem;
      after.notPresent ==
      if Off(before.state) || Off(after.state) then 0
      else if before.state == Init then before.notPresent
      else if i.power then 0
      else before.notPresent + (i.time - before.timePrevious)
    ensures d.mem.state == Init && !i.power ==> Off(Updated(d, i).mem.state)
  {
  }

  /** The defender's gap timer is the time since the last update that had power or wiped the timers. */
  lemma {:induction false} GapIsAccountedFor(d: Device, ins: seq<Input>, n: nat)
    requires IsFresh(d) && 1 <= n <= |ins|
    ensures LastReset(d, ins, n) >= 1 && After(d, ins, n).mem.notPresent == ins[n - 1].time - ResetTime(d, ins, n)
    ensures After(d, ins, n).mem.timePrevious == ins[n - 1].time
  {
    hide Updated;
    OneGapUpdate(After(d, ins, n - 1), ins[n - 1]);
    OneUpdate(After(d, ins, n - 1), ins[n - 1]);
    InitOnlyAtStart(d, ins, n - 1);
    if n > 1 {
      GapIsAccountedFor(d, ins, n - 1);
    } else {
      assert After(d, ins, 0) == d;
    }
  }

  // ---------- The states ----------

  /** At update n the defender is charging or starts with power, is enabled and not asked to clear, and sees no power gap
      as long as the resume time. */
  predicate GoesOn(d: Device, ins: seq<Input>, n: nat)
    requires 1 <= n <= |ins|
  {
    var i, before := ins[n - 1], After(d, ins, n - 1).mem.state;
    && !i.disabled
    && if before == Init then i.power
       else Charging(before) && !i.clearRequested &&
            (i.power || i.time - ResetTime(d, ins, n - 1) < i.timeToClear)
  }

  lemma OneTransition(d: Device, i: Input)
    ensures
      var before, after := d.mem.state, Updated(d, i).mem.state;
      var m := Updated(d, i).mem;
      var gap := i.power || d.mem.notPresent + (i.time - d.mem.timePrevious) < i.timeToClear;
      && (after == Disabled <==> i.disabled)
      && (!i.disabled && before == Init && !i.power ==> after == Disconnected)
      && (!i.disabled && before == Disabled ==> after == Disconnected)
      && (!i.disabled && before == Disconnected ==> after == if i.power then Connected else Disconnected)
      && (!i.disabled && Charging(before) && (i.clearRequested || !gap) ==> after == Disconnected)
      && (!i.disabled && before == Init && i.power ==> after == if m.present > i.timeToActivate then Active else Connected)
      && (!i.disabled && before == Connected && !i.clearRequested && gap ==>
            after == if m.present > i.timeToActivate then Active else Connected)
      && (!i.disabled && before == Active && !i.clearRequested && gap ==> after == Active)
      && (Off(after) ==> m.present == 0 && m.notPresent == 0 && m.activeTime == 0 && !m.reachedHigh)
  {
  }

  /** The defender goes on charging exactly as long as nothing speaks against it, becomes active exactly when the accounted
      time exceeds the activation time in force, and then stays active. */
  lemma ActiveIsEarned(d: Device, ins: seq<Input>, n: nat)
    requires IsFresh(d) && 1 <= n <= |ins| && GoesOn(d, ins, n)
    ensures
      var before, after := After(d, ins, n - 1).mem.state, After(d, ins, n).mem.state;
      after == if before == Active || Tally(d, ins, n) > ins[n - 1].timeToActivate then Active else Connected
  {
    hide Updated, Tally;
    OneTransition(After(d, ins, n - 1), ins[n - 1]);
    TimeIsAccountedFor(d, ins, n);
    InitOnlyAtStart(d, ins, n - 1);
    if n > 1 {
      GapIsAccountedFor(d, ins, n - 1);
    }
  }

  /** Otherwise: disabled if and only if told so, disconnected when asked to clear, when a gap lasts too long and without
      power at the start, connected again when power comes back, always with all timers at zero when off. */
  lemma OffWhenNotGoingOn(d: Device, ins: seq<Input>, n: nat)
    requires IsFresh(d) && 1 <= n <= |ins| && !GoesOn(d, ins, n)
    ensures
      var i, before, after := ins[n - 1], After(d, ins, n - 1).mem.state, After(d, ins, n).mem;
      && after.state == (if i.disabled then Disabled
                         else if before == Disconnected && i.power then Connected
                         else Disconnected)
      && (Off(after.state) ==> after.present == 0 && after.notPresent == 0 && after.activeTime == 0 && !after.reachedHigh)
  {
    hide Updated;
    OneTransition(After(d, ins, n - 1), ins[n - 1]);
    InitOnlyAtStart(d, ins, n - 1);
    if n > 1 {
      GapIsAccountedFor(d, ins, n - 1);
    }
  }

  // ---------- Power gaps ----------

  /** The clock at the last powered update, or at the start of an unpowered stretch already running. */
  function LastPowered(d: Device, ins: seq<Input>, n: nat): int
    requires n <= |ins|
  {
    if n == 0 then d.mem.timePrevious - d.mem.notPresent
    else if ins[n - 1].power then ins[n - 1].time
    else LastPowered(d, ins, n - 1)
  }

  predicate Undisturbed(ins: seq<Input>) {
    forall k :: 0 <= k < |ins| ==> !ins[k].disabled && !ins[k].clearRequested
  }

  /** Update k sees a power gap shorter than the resume time. */
  predicate GapTolerated(d: Device, ins: seq<Input>, k: nat)
    requires 1 <= k <= |ins|
  {
    ins[k - 1].power || ins[k - 1].time - LastPowered(d, ins, k) < ins[k - 1].timeToClear
  }

  ghost predicate AllCharging(d: Device, ins: seq<Input>, n: nat)
    requires n <= |ins|
  {
    forall k :: 0 <= k <= n ==> Charging(After(d, ins, k).mem.state)
  }

  ghost predicate AllTolerated(d: Device, ins: seq<Input>, n: nat)
    requires n <= |ins|
  {
    forall k :: 1 <= k <= n ==> GapTolerated(d, ins, k)
  }

  lemma GapStep(d: Device, i: Input)
    requires Charging(d.mem.state)
    ensures
      var m, gap := Updated(d, i).mem, i.time - d.mem.timePrevious + d.mem.notPresent;
      && m.timePrevious == i.time
      && (Charging(m.state) ==> m.notPresent == (if i.power then 0 else gap))
      && (!i.disabled && !i.clearRequested ==> (Charging(m.state) <==> i.power || gap < i.timeToClear))
      && (Charging(m.state) && d.mem.timePrevious <= i.time ==> d.mem.present <= m.present)
  {
  }

  lemma {:induction false} GapIsMeasured(d: Device, ins: seq<Input>, n: nat)
    requires n <= |ins| && AllCharging(d, ins, n)
    ensures
      var m := After(d, ins, n).mem;
      && m.timePrevious - m.notPresent == LastPowered(d, ins, n)
      && m.timePrevious == PreviousTime(d, ins, n)
  {
    if n > 0 {
      hide Updated;
      assert AllCharging(d, ins, n - 1);
      GapIsMeasured(d, ins, n - 1);
      assert Charging(After(d, ins, n - 1).mem.state) && Charging(After(d, ins, n).mem.state);
      GapStep(After(d, ins, n - 1), ins[n - 1]);
    }
  }

  lemma ChargingStep(d: Device, ins: seq<Input>, n: nat)
    requires 1 <= n <= |ins| && Undisturbed(ins) && AllCharging(d, ins, n - 1)
    ensures Charging(After(d, ins, n).mem.state) <==> GapTolerated(d, ins, n)
  {
    hide Updated;
    GapIsMeasured(d, ins, n - 1);
    assert Charging(After(d, ins, n - 1).mem.state);
    GapStep(After(d, ins, n - 1), ins[n - 1]);
  }

  /** While enabled and not cleared on request, the defender keeps charging state through a run if and
      only if no power gap in it lasts as long as the resume time. */
  lemma {:induction false} GapLaw(d: Device, ins: seq<Input>, n: nat)
    requires n <= |ins| && Undisturbed(ins) && Charging(d.mem.state)
    ensures AllCharging(d, ins, n) <==> AllTolerated(d, ins, n)
  {
    if n > 0 {
      hide Updated;
      GapLaw(d, ins, n - 1);
      assert AllCharging(d, ins, n) ==> AllCharging(d, ins, n - 1);
      assert AllTolerated(d, ins, n) ==> AllTolerated(d, ins, n - 1);
      if AllCharging(d, ins, n - 1) {
        ChargingStep(d, ins, n);
      }
    }
  }

  /** The clock at the update before the one at index k. */
  function PreviousTime(d: Device, ins: seq<Input>, k: nat): int
    requires k <= |ins|
  {
    if k == 0 then d.mem.timePrevious else ins[k - 1].time
  }

  predicate ClockRuns(d: Device, ins: seq<Input>) {
    forall k :: 0 <= k < |ins| ==> PreviousTime(d, ins, k) <= ins[k].time
  }

  /** Short gaps lose nothing: the charger-present time never goes down. */
  lemma ShortGapsKeepTime(d: Device, ins: seq<Input>, n: nat)
    requires 1 <= n <= |ins| && Undisturbed(ins) && Charging(d.mem.state) && ClockRuns(d, ins)
    requires AllTolerated(d, ins, n)
    ensures After(d, ins, n - 1).mem.present <= After(d, ins, n).mem.present
  {
    hide Updated;
    GapLaw(d, ins, n);
    assert AllCharging(d, ins, n - 1);
    GapIsMeasured(d, ins, n - 1);
    assert Charging(After(d, ins, n - 1).mem.state) && Charging(After(d, ins, n).mem.state);
    assert After(d, ins, n - 1).mem.timePrevious <= ins[n - 1].time;
    GapStep(After(d, ins, n - 1), ins[n - 1]);
  }

  // ---------- Persistence ----------

  /** The file is what was last handed to it, close to the live time, and exact at zero. */
  predicate Synced(live: int, file: int, saved: int) {
    && saved == file
    && live - WRITE_DELAY_SECS <= file <= live + WRITE_DELAY_SECS
    && (live == 0 ==> file == 0)
  }

  predicate DeviceSynced(d: Device) {
    && Synced(d.mem.present, d.disk.present, d.mem.presentSaved)
    && Synced(d.mem.activeTime, d.disk.activeTime, d.mem.activeSaved)
  }

  predicate WritesSucceed(ins: seq<Input>) {
    forall k :: 0 <= k < |ins| ==> ins[k].writeOk
  }

  predicate NonNegative(d: Device) {
    d.mem.present >= 0 && d.mem.activeTime >= 0 && d.disk.present >= 0 && d.disk.activeTime >= 0
  }

  lemma WriteKeepsSynced(file: int, value: int, saved: int)
    requires value >= 0 && (saved == -1 || saved == file)
    ensures var (f, s) := WriteTime(file, value, saved, true); Synced(value, f, s)
  {
  }

  /** With successful writes both files stay within the write delay of the live times, from the first update on. */
  lemma {:induction false} FilesFollow(d: Device, ins: seq<Input>, n: nat)
    requires IsFresh(d) && n <= |ins| && ClockRuns(d, ins) && WritesSucceed(ins) && NonNegative(d)
    ensures NonNegative(After(d, ins, n))
    ensures n == 0 || DeviceSynced(After(d, ins, n))
    ensures After(d, ins, n).mem.timePrevious == PreviousTime(d, ins, n)
  {
    hide Updated, NonNegative, DeviceSynced, ClockRuns, WritesSucceed;
    if n > 0 {
      FilesFollow(d, ins, n - 1);
      WriteAt(d, ins, n - 1);
      FileStep(After(d, ins, n - 1), ins[n - 1]);
    }
  }

  lemma WriteAt(d: Device, ins: seq<Input>, k: nat)
    requires ClockRuns(d, ins) && WritesSucceed(ins) && k < |ins|
    ensures PreviousTime(d, ins, k) <= ins[k].time && ins[k].writeOk
  {
  }

  lemma FileStep(d: Device, i: Input)
    requires NonNegative(d) && i.writeOk && d.mem.timePrevious <= i.time
    requires DeviceSynced(d) || (d.mem.presentSaved == -1 && d.mem.activeSaved == -1)
    ensures NonNegative(Updated(d, i)) && DeviceSynced(Updated(d, i)) && Updated(d, i).mem.timePrevious == i.time
  {
    var m := Settled(d.mem, d.disk, i);
    assert m.present >= 0 && m.activeTime >= 0;
    assert m.presentSaved == d.mem.presentSaved && m.activeSaved == d.mem.activeSaved;
    WriteKeepsSynced(d.disk.present, m.present, m.presentSaved);
    WriteKeepsSynced(d.disk.activeTime, m.activeTime, m.activeSaved);
  }

  /** One life of the process: it starts with power and is never off. */
  datatype Life = Life(start: int, ins: seq<Input>)

  ghost predicate Uninterrupted(disk: Disk, l: Life) {
    var d := Fresh(disk, l.start);
    && l.ins != [] && l.ins[0].power && ClockRuns(d, l.ins) && WritesSucceed(l.ins)
    && forall k :: 1 <= k <= |l.ins| ==> !Clears(d, l.ins, k)
  }

  function EndOf(disk: Disk, l: Life): Device {
    After(Fresh(disk, l.start), l.ins, |l.ins|)
  }

  ghost function Earned(disk: Disk, l: Life): int {
    Credits(Fresh(disk, l.start), l.ins, 0, |l.ins|)
  }

  /** The files after the first n lives of the process. */
  function DiskAfter(disk: Disk, lives: seq<Life>, n: nat): Disk
    requires n <= |lives|
  {
    if n == 0 then disk else EndOf(DiskAfter(disk, lives, n - 1), lives[n - 1]).disk
  }

  ghost function TotalEarned(disk: Disk, lives: seq<Life>, n: nat): int
    requires n <= |lives|
  {
    if n == 0 then 0
    else TotalEarned(disk, lives, n - 1) + Earned(DiskAfter(disk, lives, n - 1), lives[n - 1])
  }

  lemma LifeAddsEarned(disk: Disk, l: Life)
    requires Uninterrupted(disk, l) && disk.present >= 0 && disk.activeTime >= 0
    ensures EndOf(disk, l).mem.present == disk.present + Earned(disk, l)
    ensures NonNegative(EndOf(disk, l)) && DeviceSynced(EndOf(disk, l))
  {
    var d, n := Fresh(disk, l.start), |l.ins|;
    TimeIsAccountedFor(d, l.ins, n);
    FilesFollow(d, l.ins, n);
    LastClearIs(d, l.ins, n);
  }

  /** n powered restarts lose or gain at most n write delays of charger-present time. */
  lemma {:induction false} RestartsLoseLittle(disk: Disk, lives: seq<Life>, n: nat)
    requires 1 <= n <= |lives| && disk.present >= 0 && disk.activeTime >= 0
    requires forall k :: 0 <= k < n ==> Uninterrupted(DiskAfter(disk, lives, k), lives[k])
    ensures
      var live := EndOf(DiskAfter(disk, lives, n - 1), lives[n - 1]).mem.present;
      var exact := disk.present + TotalEarned(disk, lives, n);
      exact - (n - 1) * WRITE_DELAY_SECS <= live <= exact + (n - 1) * WRITE_DELAY_SECS
    ensures NonNegative(EndOf(DiskAfter(disk, lives, n - 1), lives[n - 1]))
    ensures DeviceSynced(EndOf(DiskAfter(disk, lives, n - 1), lives[n - 1]))
  {
    hide Updated, After;
    if n > 1 {
      RestartsLoseLittle(disk, lives, n - 1);
    } else {
      assert DiskAfter(disk, lives, 0) == disk && TotalEarned(disk, lives, 0) == 0;
    }
    LifeAddsEarned(DiskAfter(disk, lives, n - 1), lives[n - 1]);
  }
}
