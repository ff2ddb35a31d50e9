/** One pending id per package, and deadlines: with one pool thread nothing is popped early
    (power-libperfmgr/aidl/BackgroundWorker.cpp:86-129 ignores the result of wait_until). */
module WorkerPoolTiming {
  import opened Options
  import opened WorkerPool
  import opened WorkerPoolLoss

  // ---------- Exactly one pending id, carrying the deadline asked for ----------

  ghost predicate OneHolder(s: Pool, a: int) {
    forall h, g, id :: Holds(s, h, a, id) && Holds(s, g, a, id) ==> h == g
  }

  ghost predicate AsAsked(s: Pool, a: int)
    requires a in s.reg.workers
  {
    forall h, id :: Holds(s, h, a, id) ==>
                      id in s.reg.workers[a].asked && HeldDeadline(s, h, a, id) == s.reg.workers[a].asked[id]
  }

  ghost predicate Settled(s: Pool) {
    forall a :: Clean(s, a) && !s.reg.workers[a].crowded ==> OneHolder(s, a) && AsAsked(s, a)
  }

  lemma SameHolder(s: Pool, step: Step, h: Holder, g: Holder, a: int, id: nat)
    requires Flight(s) && AllCounted(s) && Settled(s) && Enabled(s, step)
    requires Clean(s, a) && Clean(Apply(s, step), a) && !Apply(s, step).reg.workers[a].crowded
    requires Holds(Apply(s, step), h, a, id) && Holds(Apply(s, step), g, a, id)
    ensures h == g
  {
    if step.Insert? && step.worker == a && id == s.reg.workers[a].counter + 1 {
      NewIdOnlyInGap(s, step, h, id);
      NewIdOnlyInGap(s, step, g, id);
    } else {
      IdMoved(s, step, h, a, id);
      IdMoved(s, step, g, a, id);
      CrowdedStep(s, step, a);
      assert OneHolder(s, a);
    }
  }

  lemma OneHolderStep(s: Pool, step: Step, a: int)
    requires Flight(s) && AllCounted(s) && Settled(s) && Enabled(s, step)
    requires Clean(s, a) && Clean(Apply(s, step), a) && !Apply(s, step).reg.workers[a].crowded
    ensures OneHolder(Apply(s, step), a)
  {
    forall h, g, id | Holds(Apply(s, step), h, a, id) && Holds(Apply(s, step), g, a, id)
      ensures h == g
    {
      SameHolder(s, step, h, g, a, id);
    }
  }

  lemma NewIdOnlyInGap(s: Pool, step: Step, h: Holder, id: nat)
    requires Flight(s) && AllCounted(s) && Enabled(s, step) && step.Insert? && Clean(s, step.worker)
    requires !Apply(s, step).reg.workers[step.worker].crowded
    requires id == s.reg.workers[step.worker].counter + 1 && Holds(Apply(s, step), h, step.worker, id)
    ensures h == GapHolder(step.caller)
  {
    var a := step.worker;
    assert LoadedExist(s.reg.workers[a]);
    GapStep(s, step, a);
    if !h.GapHolder? {
      IdMoved(s, step, h, a, id);
    }
  }

  lemma AsAskedStep(s: Pool, step: Step, a: int)
    requires Flight(s) && AllCounted(s) && Settled(s) && Enabled(s, step)
    requires Clean(s, a) && Clean(Apply(s, step), a) && !Apply(s, step).reg.workers[a].crowded
    ensures AsAsked(Apply(s, step), a)
  {
    var s' := Apply(s, step);
    forall h, id | Holds(s', h, a, id)
      ensures id in s'.reg.workers[a].asked && HeldDeadline(s', h, a, id) == s'.reg.workers[a].asked[id]
    {
      if step.Insert? && step.worker == a {
        if id == s.reg.workers[a].counter + 1 {
          NewIdOnlyInGap(s, step, h, id);
        } else {
          IdMoved(s, step, h, a, id);
        }
      } else {
        IdMoved(s, step, h, a, id);
        if !step.Load? || s.callers[step.caller].worker != a {
          SameBooks(s, step, a);
        }
      }
    }
  }

  lemma SettledStep(s: Pool, step: Step)
    requires Flight(s) && AllCounted(s) && Settled(s) && Enabled(s, step)
    ensures Settled(Apply(s, step))
  {
    var s' := Apply(s, step);
    hide Flight, AllCounted, Settled, OneHolder, AsAsked;
    forall a | Clean(s', a) && !s'.reg.workers[a].crowded
      ensures OneHolder(s', a) && AsAsked(s', a)
    {
      NewOrClean(s, step, a);
      if a in s.reg.workers {
        OneHolderStep(s, step, a);
        AsAskedStep(s, step, a);
      } else {
        NewWorkerSettled(s, step, a);
      }
    }
    AllSettled(s');
  }

  lemma AllSettled(s: Pool)
    requires forall a :: Clean(s, a) && !s.reg.workers[a].crowded ==> OneHolder(s, a) && AsAsked(s, a)
    ensures Settled(s)
  {
  }

  lemma NewWorkerSettled(s: Pool, step: Step, a: int)
    requires Flight(s) && Enabled(s, step) && step == Create(a) && Clean(Apply(s, step), a)
    ensures OneHolder(Apply(s, step), a) && AsAsked(Apply(s, step), a)
  {
    forall h, id
      ensures !Holds(Apply(s, step), h, a, id)
    {
      NothingOnItsWay(s, step, h, a, id);
    }
  }

  lemma {:induction false} RunKeepsSettled(n: nat, ss: seq<Pool>, steps: seq<Step>, i: nat)
    requires IsRun(n, ss, steps) && i < |ss|
    ensures Settled(ss[i])
  {
    if i > 0 {
      hide Apply, Enabled, Flight, AllCounted, Settled;
      assert Linked(ss, steps, i - 1);
      RunKeepsFlight(n, ss, steps, i - 1);
      RunKeepsSettled(n, ss, steps, i - 1);
      SettledStep(ss[i - 1], steps[i - 1]);
    }
  }

  /** While the calls of a worker have not overlapped, each package it stores has exactly one pending id. */
  lemma ExactlyOnePending(n: nat, ss: seq<Pool>, steps: seq<Step>, i: nat, a: int, id: nat)
    requires IsRun(n, ss, steps) && i < |ss| && Registered(ss[i], a) && Clean(ss[i], a)
    requires id in ss[i].reg.workers[a].packages && !Overlapped(ss, steps, i, a)
    ensures exists h :: Holds(ss[i], h, a, id) && forall g :: Holds(ss[i], g, a, id) ==> g == h
  {
    RunKeepsFlight(n, ss, steps, i);
    CrowdedMeansOverlap(n, ss, steps, i, a);
    LostExactlyWhenCrowded(ss[i], a);
    RunKeepsSettled(n, ss, steps, i);
    assert !Lost(ss[i], a, id);
    assert OneHolder(ss[i], a);
  }

  // ---------- Nothing is popped before its deadline ----------

  /** A thread that waits for a deadline finds something due by then at the top when it stops waiting. */
  ghost predicate TimelyWait(s: Pool, k: nat)
    requires k < |s.threads|
  {
    s.threads[k].Waiting? && s.threads[k].until.Some? ==>
      exists t :: t in s.queue && s.queue[t].deadline <= s.threads[k].until.value
  }

  predicate Due(s: Pool, k: nat)
    requires k < |s.threads|
  {
    s.threads[k].Popped? || s.threads[k].Inside? || s.threads[k].Calling? ==> s.threads[k].entry.deadline <= s.clock
  }

  ghost predicate Punctual(s: Pool) {
    |s.threads| <= 1 && NumbersFresh(s) && forall k :: 0 <= k < |s.threads| ==> TimelyWait(s, k) && Due(s, k)
  }

  predicate PopsInTime(s: Pool, step: Step)
    requires Enabled(s, step) && Pops(s, step)
  {
    var t := step.top.value;
    && t in s.queue && s.queue[t].deadline <= s.clock
    && forall u :: u in s.queue ==> s.queue[t].deadline <= s.queue[u].deadline
  }

  lemma PunctualPop(s: Pool, step: Step)
    requires Punctual(s) && Enabled(s, step) && Pops(s, step)
    ensures PopsInTime(s, step)
  {
    assert TimelyWait(s, step.thread);
  }

  lemma TimelyWaitStep(s: Pool, step: Step, k: nat)
    requires Punctual(s) && Enabled(s, step) && k < |s.threads|
    ensures TimelyWait(Apply(s, step), k)
  {
    var s' := Apply(s, step);
    assert TimelyWait(s, k) && k == 0;
    if s.threads[k].Waiting? && s.threads[k].until.Some? && s'.threads[k] == s.threads[k] {
      var t :| t in s.queue && s.queue[t].deadline <= s.threads[k].until.value;
      assert t in s'.queue && s'.queue[t] == s.queue[t];
    }
  }

  lemma PunctualStep(s: Pool, step: Step)
    requires Punctual(s) && Enabled(s, step)
    ensures Punctual(Apply(s, step))
  {
    NumbersFreshStep(s, step);
    var s' := Apply(s, step);
    if Pops(s, step) {
      PunctualPop(s, step);
    }
    forall k | 0 <= k < |s'.threads|
      ensures TimelyWait(s', k) && Due(s', k)
    {
      TimelyWaitStep(s, step, k);
      assert Due(s, k);
    }
  }

  lemma {:induction false} RunKeepsPunctual(n: nat, ss: seq<Pool>, steps: seq<Step>, i: nat)
    requires IsRun(n, ss, steps) && i < |ss| && n <= 1
    ensures Punctual(ss[i])
  {
    if i > 0 {
      hide Apply, Enabled, Punctual;
      assert Linked(ss, steps, i - 1);
      RunKeepsPunctual(n, ss, steps, i - 1);
      PunctualStep(ss[i - 1], steps[i - 1]);
    }
  }

  /** In every run of a pool of n threads, every pop takes an earliest entry, at or after its deadline. */
  ghost predicate NeverEarly(n: nat) {
    forall ss, steps, i ::
      IsRun(n, ss, steps) && 0 <= i < |steps| && Linked(ss, steps, i) && Pops(ss[i], steps[i]) ==>
        PopsInTime(ss[i], steps[i])
  }

  lemma ScheduleRun(n: nat, ss: seq<Pool>, steps: seq<Step>, deadline: int) returns (ss': seq<Pool>, steps': seq<Step>)
    requires IsRun(n, ss, steps)
    requires var s := ss[|ss| - 1]; 0 !in s.callers && 0 in s.reg.workers
    ensures IsRun(n, ss', steps')
    ensures
      var s, s' := ss[|ss| - 1], ss'[|ss'| - 1];
      && s'.callers == s.callers && 0 in s'.reg.workers && s'.threads == s.threads
      && s'.clock == s.clock && s'.running == s.running && s'.enqueued == s.enqueued + 1
      && s'.queue == s.queue[s.enqueued := Entry(deadline, 0, s.reg.workers[0].counter + 1)]
  {
    var s := ss[|ss| - 1];
    ss', steps' := Extend(n, ss, steps, Insert(0, 0, 0, deadline));
    ss', steps' := Extend(n, ss', steps', Load(0));
    ss', steps' := Extend(n, ss', steps', Enqueue(0));
    assert ss'[|ss'| - 1].callers == s.callers;
  }

  lemma TwoQueued(n: nat) returns (ss: seq<Pool>, steps: seq<Step>, s: Pool)
    ensures IsRun(n, ss, steps) && s == ss[|ss| - 1] && s.running && s.clock == 0 && |s.threads| == n
    ensures forall k :: 0 <= k < n ==> s.threads[k] == AtLoop
    ensures s.queue.Keys == {0, 1} && s.queue[0].deadline == 5 && s.queue[1].deadline == 9
  {
    ss, steps := [Initial(0, n)], [];
    ss, steps := Extend(n, ss, steps, Create(0));
    ss, steps := ScheduleRun(n, ss, steps, 5);
    ss, steps := ScheduleRun(n, ss, steps, 9);
    s := ss[|ss| - 1];
  }

  /** Two threads wait for the same deadline; one pops that entry, the other times out and pops the next one. */
  lemma TwoThreadsPopEarly(n: nat)
    requires n >= 2
    ensures !NeverEarly(n)
  {
    var ss, steps, s := TwoQueued(n);
    ss, steps := Extend(n, ss, steps, Enter(0, Some(0)));
    ss, steps := Extend(n, ss, steps, Enter(1, Some(0)));
    ss, steps := Extend(n, ss, steps, Tick(5));
    ss, steps := Extend(n, ss, steps, Wake(0, Some(0)));
    var last := Timeout(1, Some(1));
    var i := |steps|;
    ss, steps := Extend(n, ss, steps, last);
    assert Linked(ss, steps, i);
    assert steps[i] == last && Pops(ss[i], steps[i]) && !PopsInTime(ss[i], steps[i]);
  }

  /** Nothing is ever popped early if and only if the pool has at most one thread. */
  lemma NeverEarlyLaw(n: nat)
    ensures NeverEarly(n) <==> n <= 1
  {
    if n <= 1 {
      forall ss, steps, i | IsRun(n, ss, steps) && 0 <= i < |steps| && Linked(ss, steps, i) && Pops(ss[i], steps[i])
        ensures PopsInTime(ss[i], steps[i])
      {
        RunKeepsPunctual(n, ss, steps, i);
        PunctualPop(ss[i], steps[i]);
      }
    } else {
      TwoThreadsPopEarly(n);
    }
  }

  /** A package of a worker whose calls have not overlapped runs at or after the deadline it was scheduled for. */
  lemma RunsAfterDeadline(n: nat, ss: seq<Pool>, steps: seq<Step>, i: nat)
    requires IsRun(n, ss, steps) && n <= 1 && i < |steps| && Linked(ss, steps, i) && steps[i].Take?
    requires Clean(ss[i], ss[i].threads[steps[i].thread].entry.worker)
    ensures
      var e := ss[i].threads[steps[i].thread].entry;
      var w := ss[i].reg.workers[e.worker];
      !Overlapped(ss, steps, i, e.worker) && e.id in w.packages ==>
        e.id in w.asked && w.asked[e.id] <= ss[i].clock
  {
    assert Linked(ss, steps, i);
    var k := steps[i].thread;
    var e := ss[i].threads[k].entry;
    RunKeepsPunctual(n, ss, steps, i);
    assert Due(ss[i], k);
    RunKeepsSettled(n, ss, steps, i);
    CrowdedMeansOverlap(n, ss, steps, i, e.worker);
    assert Holds(ss[i], ThreadHolder(k), e.worker, e.id);
    if !ss[i].reg.workers[e.worker].crowded {
      assert AsAsked(ss[i], e.worker);
    }
  }

  /** The new worker at the stale address has scheduled its first package for 100. */
  lemma ScheduledForLater(n: nat) returns (ss: seq<Pool>, steps: seq<Step>)
    requires n > 0
    ensures IsRun(n, ss, steps)
    ensures
      var s := ss[|ss| - 1];
      && s.clock == 0 && s.running && |s.threads| == n && s.threads[0] == AtLoop
      && s.queue == map[0 := Entry(5, 0, 1), 1 := Entry(100, 0, 1)]
      && Registered(s, 0) && !Clean(s, 0) && s.reg.workers[0] == Worker(1, map[1 := 7], 1, {1}, map[1 := 100], false)
      && s.reg.ran == []
  {
    ss, steps := LeftBehind(n);
    assert Gap(ss[|ss| - 1], 0) == {};
    ss, steps := Extend(n, ss, steps, Insert(0, 0, 7, 100));
    ss, steps := Extend(n, ss, steps, Load(0));
    ss, steps := Extend(n, ss, steps, Enqueue(0));
  }

  /** At a stale address a package can run early: at 5 the entry left behind brings the id of the new worker's first
      package, which was scheduled for 100. */
  lemma LeftBehindRunsEarly(n: nat) returns (ss: seq<Pool>, steps: seq<Step>)
    requires n > 0
    ensures IsRun(n, ss, steps) && |ss| >= 2
    ensures
      var i := |steps| - 1;
      && Linked(ss, steps, i) && steps[i] == Take(0) && ss[i].clock == 5 && 0 in ss[i].reg.workers && !Clean(ss[i], 0)
      && !ss[i].reg.workers[0].crowded && ss[i].reg.workers[0].asked == map[1 := 100]
      && ss[i].reg.ran == [] && ss[i + 1].reg.ran == [Run(ss[i].reg.workers[0].generation, 1, 7)]
  {
    ss, steps := ScheduledForLater(n);
    ss, steps := Extend(n, ss, steps, Tick(5));
    ss, steps := Extend(n, ss, steps, Enter(0, Some(0)));
    ss, steps := Extend(n, ss, steps, LookUp(0));
    var i := |steps|;
    ss, steps := Extend(n, ss, steps, Take(0));
    assert Linked(ss, steps, i);
  }
}
