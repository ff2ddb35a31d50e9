/** What becomes of every package: each one that `schedule` stores stays stored until it is handed to the callback, with
    the payload it came with, and a pool thread that is not stopped always gets back to its loop
    (power-libperfmgr/aidl/BackgroundWorker.h:106-143, BackgroundWorker.cpp:86-141). */
module WorkerPoolDelivery {
  import opened Options
  import opened WorkerPool
  import opened WorkerPoolLoss
  import opened WorkerPoolTiming

  // ---------- Conservation ----------

  /** Step t stored the package that worker `generation` at address a knows as id. */
  predicate StoredBy(ss: seq<Pool>, steps: seq<Step>, t: nat, a: int, generation: nat, id: nat)
    requires |ss| == |steps| + 1 && t < |steps|
  {
    && steps[t].Insert? && steps[t].worker == a && a in ss[t].reg.workers && a in ss[t + 1].reg.workers
    && ss[t].reg.workers[a].generation == generation && ss[t + 1].reg.workers[a].counter == id
  }

  predicate IsStored(s: Pool, a: int, id: nat, payload: int) {
    a in s.reg.workers && id in s.reg.workers[a].packages && s.reg.workers[a].packages[id] == payload
  }

  /** Position j of the record is the run of this package. */
  predicate IsRunOf(s: Pool, j: nat, generation: nat, id: nat) {
    j < |s.reg.ran| && s.reg.ran[j].generation == generation && s.reg.ran[j].id == id
  }

  ghost predicate HasRun(s: Pool, generation: nat, id: nat, payload: int) {
    Run(generation, id, payload) in s.reg.ran
  }

  lemma RecordGrows(s: Pool, step: Step)
    requires Enabled(s, step)
    ensures s.reg.ran <= Apply(s, step).reg.ran
  {
    if IsQuiet(step) {
      QuietStep(s, step);
    }
  }

  /** A stored package stays as it is, or is handed over by this step. */
  lemma StoredStep(s: Pool, step: Step, a: int, id: nat, payload: int)
    requires WorkersKnown(s) && Enabled(s, step) && IsStored(s, a, id, payload) && a in Apply(s, step).reg.workers
    ensures
      || IsStored(Apply(s, step), a, id, payload)
      || (step.Take? && Apply(s, step).reg.ran == s.reg.ran + [Run(s.reg.workers[a].generation, id, payload)])
  {
    assert PackagesKnown(s.reg.workers[a]);
    if IsQuiet(step) {
      QuietStep(s, step);
    }
  }

  lemma InsertStores(s: Pool, step: Step)
    requires Enabled(s, step) && step.Insert?
    ensures
      var s' := Apply(s, step);
      && step.worker in s'.reg.workers
      && s'.reg.workers[step.worker].counter == s.reg.workers[step.worker].counter + 1
      && IsStored(s', step.worker, s'.reg.workers[step.worker].counter, step.payload)
  {
  }

  /** Over every run, what a live worker has stored is still there, or has been handed to its callback. */
  lemma {:induction false} NothingVanishes(n: nat, ss: seq<Pool>, steps: seq<Step>, t: nat, i: nat, a: int, generation: nat,
                                           id: nat)
    requires IsRun(n, ss, steps) && t < i < |ss| && StoredBy(ss, steps, t, a, generation, id)
    requires a in ss[i].reg.workers && ss[i].reg.workers[a].generation == generation
    ensures IsStored(ss[i], a, id, steps[t].payload) || HasRun(ss[i], generation, id, steps[t].payload)
    decreases i
  {
    hide Apply, Enabled;
    var s, step := ss[i - 1], steps[i - 1];
    assert Linked(ss, steps, i - 1);
    if t == i - 1 {
      InsertStores(s, step);
    } else {
      RunKeepsIdentity(n, ss, steps, i - 1);
      CrowdedStep(s, step, a);
      if a !in s.reg.workers {
        OldGenerations(n, ss, steps, t, i - 1, a);
      } else {
        NothingVanishes(n, ss, steps, t, i - 1, a, generation, id);
        RecordGrows(s, step);
        if IsStored(s, a, id, steps[t].payload) {
          StoredStep(s, step, a, id, steps[t].payload);
        }
      }
    }
  }

  lemma OldGenerations(n: nat, ss: seq<Pool>, steps: seq<Step>, t: nat, i: nat, a: int)
    requires IsRun(n, ss, steps) && t <= i < |ss| && a in ss[t].reg.workers
    ensures ss[t].reg.workers[a].generation < ss[i].reg.generations
  {
    RunKeepsIdentity(n, ss, steps, t);
    EarlierIsOlder(n, ss, steps, t, i);
  }

  /** Some step stored this payload under this id. */
  ghost predicate WasStored(ss: seq<Pool>, steps: seq<Step>, i: nat, generation: nat, id: nat, payload: int)
    requires |ss| == |steps| + 1 && i < |ss|
  {
    exists t: nat, a :: t < i && StoredBy(ss, steps, t, a, generation, id) && steps[t].payload == payload
  }

  lemma WasStoredLater(ss: seq<Pool>, steps: seq<Step>, i: nat, generation: nat, id: nat, payload: int)
    requires |ss| == |steps| + 1 && i + 1 < |ss| && WasStored(ss, steps, i, generation, id, payload)
    ensures WasStored(ss, steps, i + 1, generation, id, payload)
  {
    var t: nat, a :| t < i && StoredBy(ss, steps, t, a, generation, id) && steps[t].payload == payload;
    assert t < i + 1;
  }

  /** A package that is stored after a step was stored before it, or by it. */
  lemma StoredBefore(s: Pool, step: Step, a: int, id: nat, payload: int)
    requires WorkersKnown(s) && Enabled(s, step) && IsStored(Apply(s, step), a, id, payload)
    ensures
      var s' := Apply(s, step);
      && a in s.reg.workers && s'.reg.workers[a].generation == s.reg.workers[a].generation
      && (IsStored(s, a, id, payload) ||
          (step.Insert? && step.worker == a && step.payload == payload && s'.reg.workers[a].counter == id))
  {
    if IsQuiet(step) {
      QuietStep(s, step);
    }
  }

  /** What is stored was put there by a call of schedule. */
  lemma {:induction false} StoredWasStored(n: nat, ss: seq<Pool>, steps: seq<Step>, i: nat, a: int, id: nat, payload: int)
    requires IsRun(n, ss, steps) && i < |ss| && IsStored(ss[i], a, id, payload)
    ensures WasStored(ss, steps, i, ss[i].reg.workers[a].generation, id, payload)
  {
    hide Apply, Enabled;
    if i > 0 {
      var s, step := ss[i - 1], steps[i - 1];
      assert Linked(ss, steps, i - 1);
      RunKeepsIdentity(n, ss, steps, i - 1);
      StoredBefore(s, step, a, id, payload);
      if IsStored(s, a, id, payload) {
        StoredWasStored(n, ss, steps, i - 1, a, id, payload);
        WasStoredLater(ss, steps, i - 1, s.reg.workers[a].generation, id, payload);
      } else {
        assert StoredBy(ss, steps, i - 1, a, s.reg.workers[a].generation, id);
      }
    }
  }

  /** A step adds at most one run to the record, that of a stored package it takes. */
  lemma RecordStep(s: Pool, step: Step, r: Run)
    requires WorkersKnown(s) && Enabled(s, step) && r in Apply(s, step).reg.ran && r !in s.reg.ran
    ensures exists a :: IsStored(s, a, r.id, r.payload) && s.reg.workers[a].generation == r.generation
  {
    if IsQuiet(step) {
      QuietStep(s, step);
    } else {
      assert step.Take?;
      assert IsStored(s, s.threads[step.thread].entry.worker, r.id, r.payload);
    }
  }

  /** Nothing runs but what a call of schedule stored, with the payload it stored. */
  lemma {:induction false} RunsWereStored(n: nat, ss: seq<Pool>, steps: seq<Step>, i: nat, r: Run)
    requires IsRun(n, ss, steps) && i < |ss| && r in ss[i].reg.ran
    ensures WasStored(ss, steps, i, r.generation, r.id, r.payload)
  {
    hide Apply, Enabled;
    if i > 0 {
      var s, step := ss[i - 1], steps[i - 1];
      assert Linked(ss, steps, i - 1);
      if r in s.reg.ran {
        RunsWereStored(n, ss, steps, i - 1, r);
      } else {
        RunKeepsIdentity(n, ss, steps, i - 1);
        RecordStep(s, step, r);
        var a :| IsStored(s, a, r.id, r.payload) && s.reg.workers[a].generation == r.generation;
        StoredWasStored(n, ss, steps, i - 1, a, r.id, r.payload);
      }
      WasStoredLater(ss, steps, i - 1, r.generation, r.id, r.payload);
    }
  }

  /** The package is on its way to its callback: stored, with exactly one pending id. */
  ghost predicate Pending(s: Pool, a: int, id: nat, payload: int) {
    IsStored(s, a, id, payload) && exists h :: Holds(s, h, a, id) && forall g :: Holds(s, g, a, id) ==> g == h
  }

  /** The package has run: it is on the record exactly once. */
  ghost predicate Done(s: Pool, generation: nat, id: nat, payload: int) {
    exists j: nat :: IsRunOf(s, j, generation, id) && s.reg.ran[j].payload == payload &&
                     forall k: nat :: IsRunOf(s, k, generation, id) ==> k == j
  }

  lemma DoneOnce(n: nat, ss: seq<Pool>, steps: seq<Step>, i: nat, generation: nat, id: nat, payload: int)
    requires IsRun(n, ss, steps) && i < |ss| && HasRun(ss[i], generation, id, payload)
    ensures Done(ss[i], generation, id, payload)
  {
    var s := ss[i];
    var j :| 0 <= j < |s.reg.ran| && s.reg.ran[j] == Run(generation, id, payload);
    assert IsRunOf(s, j, generation, id);
    forall k: nat | IsRunOf(s, k, generation, id)
      ensures k == j
    {
      if k < j {
        AtMostOnce(n, ss, steps, i, k, j);
      } else if j < k {
        AtMostOnce(n, ss, steps, i, j, k);
      }
    }
  }

  /** Delivery: in every run a package of a clean and registered worker whose calls have not overlapped is either pending
      exactly once or has run exactly once, with its own payload, and not both. */
  lemma DeliveryLaw(n: nat, ss: seq<Pool>, steps: seq<Step>, t: nat, i: nat, a: int, id: nat)
    requires IsRun(n, ss, steps) && t < i < |ss| && Registered(ss[i], a) && Clean(ss[i], a) && !Overlapped(ss, steps, i, a)
    requires StoredBy(ss, steps, t, a, ss[i].reg.workers[a].generation, id)
    ensures
      var generation, payload := ss[i].reg.workers[a].generation, steps[t].payload;
      Pending(ss[i], a, id, payload) <==> !Done(ss[i], generation, id, payload)
  {
    hide Apply, Enabled, Overlapped;
    var generation, payload := ss[i].reg.workers[a].generation, steps[t].payload;
    NothingVanishes(n, ss, steps, t, i, a, generation, id);
    if IsStored(ss[i], a, id, payload) {
      ExactlyOnePending(n, ss, steps, i, a, id);
      StoredIsNotDone(n, ss, steps, i, a, id, payload);
    } else {
      DoneOnce(n, ss, steps, i, generation, id, payload);
    }
  }

  lemma StoredIsNotDone(n: nat, ss: seq<Pool>, steps: seq<Step>, i: nat, a: int, id: nat, payload: int)
    requires IsRun(n, ss, steps) && i < |ss| && IsStored(ss[i], a, id, payload)
    ensures !Done(ss[i], ss[i].reg.workers[a].generation, id, payload)
  {
    RunKeepsIdentity(n, ss, steps, i);
    forall j: nat | j < |ss[i].reg.ran|
      ensures !IsRunOf(ss[i], j, ss[i].reg.workers[a].generation, id)
    {
      assert RanIsPast(ss[i], ss[i].reg.ran[j]);
    }
  }

  // ---------- Threads go on ----------

  /** The step is one of thread k. */
  predicate IsOf(step: Step, k: nat) {
    match step
    case Enter(j, _) => j == k
    case Wake(j, _) => j == k
    case Timeout(j, _) => j == k
    case LookUp(j) => j == k
    case Take(j) => j == k
    case Return(j) => j == k
    case _ => false
  }

  /** A thread has left its loop only if the pool was stopped. */
  ghost predicate LoopsUntilStopped(s: Pool) {
    s.running ==> forall k :: 0 <= k < |s.threads| ==> !s.threads[k].Exited?
  }

  lemma LoopsStep(s: Pool, step: Step)
    requires LoopsUntilStopped(s) && Enabled(s, step)
    ensures LoopsUntilStopped(Apply(s, step)) && (Apply(s, step).running <==> s.running && !step.Stop?)
  {
  }

  lemma {:induction false} RunLoops(n: nat, ss: seq<Pool>, steps: seq<Step>, i: nat)
    requires IsRun(n, ss, steps) && i < |ss|
    ensures LoopsUntilStopped(ss[i]) && (ss[i].running <==> Stop !in steps[..i])
  {
    if i > 0 {
      hide Apply, Enabled;
      assert Linked(ss, steps, i - 1);
      RunLoops(n, ss, steps, i - 1);
      LoopsStep(ss[i - 1], steps[i - 1]);
      assert steps[..i] == steps[..i - 1] + [steps[i - 1]];
    }
  }

  /** A busy thread gets back to its loop by its own steps alone, three at most. */
  lemma BusyComesBack(n: nat, ss: seq<Pool>, steps: seq<Step>, k: nat) returns (ss': seq<Pool>, steps': seq<Step>)
    requires IsRun(n, ss, steps) && var s := ss[|ss| - 1]; k < |s.threads| && !s.threads[k].Waiting? && !s.threads[k].Exited?
    ensures IsRun(n, ss', steps') && steps <= steps' && |steps'| <= |steps| + 3
    ensures forall t :: |steps| <= t < |steps'| ==> IsOf(steps'[t], k)
    ensures k < |ss'[|ss'| - 1].threads| && ss'[|ss'| - 1].threads[k] == AtLoop
  {
    hide Apply, Enabled, Identity;
    ss', steps' := ss, steps;
    if ss'[|ss'| - 1].threads[k].Popped? {
      ss', steps' := OwnStep(n, ss', steps', k, LookUp(k));
    }
    if ss'[|ss'| - 1].threads[k].Inside? {
      ss', steps' := OwnStep(n, ss', steps', k, Take(k));
    }
    if ss'[|ss'| - 1].threads[k].Calling? {
      ss', steps' := OwnStep(n, ss', steps', k, Return(k));
    }
  }

  /** The next step of a busy thread is always possible, and brings it closer to its loop. */
  lemma OwnStep(n: nat, ss: seq<Pool>, steps: seq<Step>, k: nat, step: Step) returns (ss': seq<Pool>, steps': seq<Step>)
    requires IsRun(n, ss, steps) && k < |ss[|ss| - 1].threads|
    requires
      var x := ss[|ss| - 1].threads[k];
      (x.Popped? && step == LookUp(k)) || (x.Inside? && step == Take(k)) || (x.Calling? && step == Return(k))
    ensures IsRun(n, ss', steps') && steps' == steps + [step] && |ss'| == |ss| + 1 && k < |ss'[|ss|].threads|
    ensures
      var x, y := ss[|ss| - 1].threads[k], ss'[|ss|].threads[k];
      y.AtLoop? || (y.Inside? && x.Popped?) || (y.Calling? && x.Inside?)
  {
    var s := ss[|ss| - 1];
    RunKeepsIdentity(n, ss, steps, |ss| - 1);
    assert Enabled(s, step);
    ss', steps' := Extend(n, ss, steps, step);
    hide IsRun, Identity, RanOnce;
  }

  /** A call of schedule that nothing comes between: the package is stored under the next id, and an entry with that id
      and the deadline is queued; callers, threads, clock and the other workers are as before. */
  lemma ScheduleAlone(n: nat, ss: seq<Pool>, steps: seq<Step>, c: nat, a: int, payload: int, deadline: int)
    returns (ss': seq<Pool>, steps': seq<Step>)
    requires IsRun(n, ss, steps) && c !in ss[|ss| - 1].callers && a in ss[|ss| - 1].reg.workers
    ensures IsRun(n, ss', steps') && steps' == steps + [Insert(c, a, payload, deadline), Load(c), Enqueue(c)]
    ensures
      var s, s' := ss[|ss| - 1], ss'[|ss'| - 1];
      var w := s.reg.workers[a];
      var id := w.counter + 1;
      && s'.queue == s.queue[s.enqueued := Entry(deadline, a, id)] && s'.enqueued == s.enqueued + 1
      && s'.callers == s.callers && s'.threads == s.threads && s'.clock == s.clock && s'.running == s.running
      && s'.reg.callbacks == s.reg.callbacks && s'.reg.ran == s.reg.ran && s'.reg.workers.Keys == s.reg.workers.Keys
      && s'.reg.workers[a].counter == id && s'.reg.workers[a].packages == w.packages[id := payload]
      && forall b :: b in s.reg.workers && b != a ==> s'.reg.workers[b] == s.reg.workers[b]
  {
    var s := ss[|ss| - 1];
    ss', steps' := Extend(n, ss, steps, Insert(c, a, payload, deadline));
    ss', steps' := Extend(n, ss', steps', Load(c));
    ss', steps' := Extend(n, ss', steps', Enqueue(c));
    assert ss'[|ss'| - 1].callers == s.callers;
  }

  /** A due package is run: a thread at its loop pops the top entry, looks the callback up and hands the package over. */
  lemma DueIsRun(n: nat, ss: seq<Pool>, steps: seq<Step>, k: nat, t: nat) returns (ss': seq<Pool>, steps': seq<Step>)
    requires IsRun(n, ss, steps)
    requires
      var s := ss[|ss| - 1];
      && s.running && k < |s.threads| && s.threads[k].AtLoop? && IsTop(s.queue, t) && s.queue[t].deadline <= s.clock
      && s.queue[t].worker in s.reg.callbacks && s.queue[t].worker in s.reg.workers
      && s.queue[t].id in s.reg.workers[s.queue[t].worker].packages
    ensures IsRun(n, ss', steps') && steps' == steps + [Enter(k, Some(t)), LookUp(k), Take(k)]
    ensures
      var s, s' := ss[|ss| - 1], ss'[|ss'| - 1];
      var e := s.queue[t];
      var w := s.reg.workers[e.worker];
      && s'.reg.ran == s.reg.ran + [Run(w.generation, e.id, w.packages[e.id])] && s'.queue == s.queue - {t}
      && s'.threads == s.threads[k := Calling(e)] && e.worker in s'.reg.workers
      && s'.reg.workers[e.worker].packages == w.packages - {e.id}
  {
    var s := ss[|ss| - 1];
    ss', steps' := Extend(n, ss, steps, Enter(k, Some(t)));
    ss', steps' := Extend(n, ss', steps', LookUp(k));
    ss', steps' := Extend(n, ss', steps', Take(k));
    assert ss'[|ss'| - 1].threads == s.threads[k := Calling(s.queue[t])];
  }

  /** A thread finds nothing exactly in an empty queue, and otherwise an entry with the earliest deadline. */
  lemma TopIsEarliest(s: Pool, t: nat)
    ensures CanPop(s, None) <==> s.queue == map[]
    ensures CanPop(s, Some(t)) <==> t in s.queue && forall u :: u in s.queue ==> s.queue[t].deadline <= s.queue[u].deadline
  {
    if s.queue != map[] {
      var u :| u in s.queue;
    }
  }

  /** With nothing due a thread waits for the earliest deadline, without an entry for as long as it takes; a stopped pool
      ends it. */
  lemma NothingDueWaits(s: Pool, k: nat, top: Option<nat>)
    requires k < |s.threads| && (s.threads[k].AtLoop? || s.threads[k].Waiting?) && CanPop(s, top)
    requires !s.running || top.None? || s.queue[top.value].deadline > s.clock
    ensures
      var step := if s.threads[k].AtLoop? then Enter(k, top) else Wake(k, top);
      && Enabled(s, step)
      && Apply(s, step) ==
         s.(threads := s.threads[k := if !s.running then Exited
                                      else if top.None? then Waiting(None)
                                      else Waiting(Some(s.queue[top.value].deadline))])
  {
  }
}
