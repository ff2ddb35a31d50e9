/** Lost packages: `TemplatePriorityQueueWorker::schedule` reads the id counter after releasing its
    lock (power-libperfmgr/aidl/BackgroundWorker.h:113). A stored package is lost when nothing that
    could still bring its id to `process` is left; this happens exactly when two calls overlapped. */
module WorkerPoolLoss {
  import opened Options
  import opened WorkerPool

  /** Where the id of a package can be on its way from `schedule` to `process`. */
  datatype Holder = GapHolder(caller: nat) | CallerHolder(caller: nat) | QueueHolder(number: nat) | ThreadHolder(thread: nat)

  predicate Carries(e: Entry, a: int, id: nat) {
    e.worker == a && e.id == id
  }

  predicate Holds(s: Pool, h: Holder, a: int, id: nat) {
    match h
    case GapHolder(c) => InGap(s, c, a) && a in s.reg.workers && s.reg.workers[a].counter == id
    case CallerHolder(c) =>
      c in s.callers && s.callers[c].Loaded? && s.callers[c].worker == a && s.callers[c].id == id
    case QueueHolder(t) => t in s.queue && Carries(s.queue[t], a, id)
    case ThreadHolder(k) =>
      k < |s.threads| && (s.threads[k].Popped? || s.threads[k].Inside?) && Carries(s.threads[k].entry, a, id)
  }

  function HeldDeadline(s: Pool, h: Holder, a: int, id: nat): int
    requires Holds(s, h, a, id)
  {
    match h
    case GapHolder(c) => s.callers[c].deadline
    case CallerHolder(c) => s.callers[c].deadline
    case QueueHolder(t) => s.queue[t].deadline
    case ThreadHolder(k) => s.threads[k].entry.deadline
  }

  predicate Pops(s: Pool, step: Step)
    requires Enabled(s, step)
  {
    (step.Enter? || step.Wake? || step.Timeout?) && Apply(s, step).threads[step.thread].Popped?
  }

  /** Where a holder's id is after the step. */
  function Moved(s: Pool, step: Step, h: Holder): Holder
    requires Enabled(s, step)
  {
    if step.Load? && h == GapHolder(step.caller) then CallerHolder(step.caller)
    else if step.Enqueue? && h == CallerHolder(step.caller) then QueueHolder(s.enqueued)
    else if Pops(s, step) && h == QueueHolder(step.top.value) then ThreadHolder(step.thread)
    else h
  }

  /** Where a holder's id was before the step. */
  function Origin(s: Pool, step: Step, h: Holder): Holder
    requires Enabled(s, step)
  {
    if step.Load? && h == CallerHolder(step.caller) then GapHolder(step.caller)
    else if step.Enqueue? && h == QueueHolder(s.enqueued) then CallerHolder(step.caller)
    else if Pops(s, step) && h == ThreadHolder(step.thread) then QueueHolder(step.top.value)
    else h
  }

  predicate NumbersFresh(s: Pool) {
    forall t :: t in s.queue ==> t < s.enqueued
  }

  lemma GapAfter(s: Pool, step: Step, c: nat, a: int, id: nat)
    requires Enabled(s, step) && Holds(s, GapHolder(c), a, id) && a in Apply(s, step).reg.workers
    requires !(step.Insert? && step.worker == a)
    ensures Holds(Apply(s, step), if step.Load? && c == step.caller then CallerHolder(c) else GapHolder(c), a, id)
  {
  }

  lemma CallerAfter(s: Pool, step: Step, c: nat, a: int, id: nat)
    requires Enabled(s, step) && Holds(s, CallerHolder(c), a, id)
    ensures Holds(Apply(s, step),
                  if step.Enqueue? && c == step.caller then QueueHolder(s.enqueued) else CallerHolder(c), a, id)
  {
  }

  lemma QueueAfter(s: Pool, step: Step, t: nat, a: int, id: nat)
    requires NumbersFresh(s) && Enabled(s, step) && Holds(s, QueueHolder(t), a, id)
    ensures Holds(Apply(s, step),
                  if Pops(s, step) && t == step.top.value then ThreadHolder(step.thread) else QueueHolder(t), a, id)
  {
  }

  lemma ThreadAfter(s: Pool, step: Step, k: nat, a: int, id: nat)
    requires Enabled(s, step) && Holds(s, ThreadHolder(k), a, id) && a in s.reg.callbacks
    requires !(step.Take? && k == step.thread)
    ensures Holds(Apply(s, step), ThreadHolder(k), a, id)
  {
  }

  /** An id in flight stays in flight, except that an insert redirects the callers in the gap and a take ends it. */
  lemma IdMoves(s: Pool, step: Step, h: Holder, a: int, id: nat)
    requires WorkersKnown(s) && NumbersFresh(s) && Enabled(s, step) && Holds(s, h, a, id)
    requires a in s.reg.callbacks && a in Apply(s, step).reg.callbacks
    requires !(step.Insert? && step.worker == a && h.GapHolder?)
    requires !(step.Take? && h == ThreadHolder(step.thread))
    ensures Holds(Apply(s, step), Moved(s, step, h), a, id)
  {
    match h
    case GapHolder(c) => GapAfter(s, step, c, a, id);
    case CallerHolder(c) => CallerAfter(s, step, c, a, id);
    case QueueHolder(t) => QueueAfter(s, step, t, a, id);
    case ThreadHolder(k) => ThreadAfter(s, step, k, a, id);
  }

  lemma GapBefore(s: Pool, step: Step, c: nat, a: int, id: nat)
    requires Enabled(s, step) && Holds(Apply(s, step), GapHolder(c), a, id)
    requires !(step.Insert? && step.worker == a) && step != Create(a)
    ensures Holds(s, GapHolder(c), a, id) && !(step.Load? && c == step.caller)
    ensures Apply(s, step).callers[c].deadline == s.callers[c].deadline
  {
  }

  lemma CallerBefore(s: Pool, step: Step, c: nat, a: int, id: nat)
    requires Enabled(s, step) && Holds(Apply(s, step), CallerHolder(c), a, id)
    ensures Holds(s, if step.Load? && c == step.caller then GapHolder(c) else CallerHolder(c), a, id)
    ensures step.Enqueue? ==> c != step.caller
    ensures Apply(s, step).callers[c].deadline == s.callers[c].deadline
  {
  }

  lemma QueueBefore(s: Pool, step: Step, t: nat, a: int, id: nat)
    requires NumbersFresh(s) && Enabled(s, step) && Holds(Apply(s, step), QueueHolder(t), a, id)
    ensures Holds(s, if step.Enqueue? && t == s.enqueued then CallerHolder(step.caller) else QueueHolder(t), a, id)
    ensures Pops(s, step) ==> t != step.top.value
    ensures step.Enqueue? && t != s.enqueued ==> t in s.queue
    ensures Apply(s, step).queue[t].deadline ==
            if step.Enqueue? && t == s.enqueued then s.callers[step.caller].deadline else s.queue[t].deadline
  {
  }

  lemma ThreadBefore(s: Pool, step: Step, k: nat, a: int, id: nat)
    requires Enabled(s, step) && Holds(Apply(s, step), ThreadHolder(k), a, id)
    ensures Holds(s, if Pops(s, step) && k == step.thread then QueueHolder(step.top.value) else ThreadHolder(k), a, id)
    ensures Apply(s, step).threads[k].entry.deadline ==
            if Pops(s, step) && k == step.thread then s.queue[step.top.value].deadline else s.threads[k].entry.deadline
  {
  }

  /** An id in flight after the step was in flight before it, with the same deadline, unless it was inserted
      by this step. */
  lemma IdMoved(s: Pool, step: Step, h: Holder, a: int, id: nat)
    requires NumbersFresh(s) && Enabled(s, step) && Holds(Apply(s, step), h, a, id)
    requires h.GapHolder? ==> !(step.Insert? && step.worker == a) && step != Create(a)
    ensures Holds(s, Origin(s, step, h), a, id) && Moved(s, step, Origin(s, step, h)) == h
    ensures HeldDeadline(Apply(s, step), h, a, id) == HeldDeadline(s, Origin(s, step, h), a, id)
  {
    match h
    case GapHolder(c) => GapBefore(s, step, c, a, id);
    case CallerHolder(c) => CallerBefore(s, step, c, a, id);
    case QueueHolder(t) => QueueBefore(s, step, t, a, id);
    case ThreadHolder(k) => ThreadBefore(s, step, k, a, id);
  }

  // ---------- What every step keeps ----------

  /** A live worker at whose creation nothing was on its way to its address. */
  predicate Clean(s: Pool, a: int) {
    a in s.reg.workers && a !in s.reg.stale
  }

  /** Ids in flight to a clean worker were read back by a caller. */
  ghost predicate FlightKnown(s: Pool) {
    forall h, a, id :: Holds(s, h, a, id) && !h.GapHolder? && Clean(s, a) ==> id in s.reg.workers[a].loaded
  }

  predicate LoadedExist(w: Worker) {
    forall id :: id in w.loaded ==> 1 <= id <= w.counter
  }

  predicate GoneWasLoaded(w: Worker) {
    forall id :: 1 <= id <= w.counter && id !in w.packages ==> id in w.loaded
  }

  /** Ids read back exist; an id whose package is gone from a clean worker was read back. */
  ghost predicate WorkersLoaded(s: Pool) {
    && (forall a :: a in s.reg.workers ==> LoadedExist(s.reg.workers[a]))
    && (forall a :: Clean(s, a) ==> GoneWasLoaded(s.reg.workers[a]))
  }

  ghost predicate InFlight(s: Pool, a: int, id: nat) {
    exists h :: Holds(s, h, a, id)
  }

  /** In flight, and no longer between insert and read. */
  ghost predicate Read(s: Pool, a: int, id: nat) {
    exists h :: Holds(s, h, a, id) && !h.GapHolder?
  }

  /** A live worker whose callback has not been removed. */
  predicate Registered(s: Pool, a: int) {
    a in s.reg.workers && a in s.reg.callbacks
  }

  ghost predicate LoadedInFlight(s: Pool) {
    forall a, id :: Registered(s, a) && id in s.reg.workers[a].packages && id in s.reg.workers[a].loaded ==> Read(s, a, id)
  }

  /** A caller in the gap has its own id behind it. */
  ghost predicate OwnKnown(s: Pool) {
    forall c :: c in s.callers && s.callers[c].Inserted? && s.callers[c].worker in s.reg.workers ==>
                  1 <= s.callers[c].own <= s.reg.workers[s.callers[c].worker].counter
  }

  ghost predicate Flight(s: Pool) {
    Identity(s) && OwnKnown(s) && NumbersFresh(s) && WorkersLoaded(s) && FlightKnown(s) && LoadedInFlight(s)
  }

  lemma LoadedExistStep(s: Pool, step: Step)
    requires Flight(s) && Enabled(s, step)
    ensures forall a :: a in Apply(s, step).reg.workers ==> LoadedExist(Apply(s, step).reg.workers[a])
  {
    hide FlightKnown, LoadedInFlight, UsersKnown, GoneWasLoaded;
    if IsQuiet(step) {
      QuietStep(s, step);
    } else if step.Insert? || step.Load? || step.Take? {
      var a := OneWorkerStep(s, step);
      assert LoadedExist(s.reg.workers[a]);
    }
  }

  lemma GoneWasLoadedStep(s: Pool, step: Step)
    requires Flight(s) && Enabled(s, step)
    ensures forall a :: Clean(Apply(s, step), a) ==> GoneWasLoaded(Apply(s, step).reg.workers[a])
  {
    hide LoadedInFlight, OwnKnown, UsersKnown, LoadedExist;
    if IsQuiet(step) {
      QuietStep(s, step);
    } else if step.Insert? || step.Load? || step.Take? {
      var a := OneWorkerStep(s, step);
      assert Clean(s, a) ==> GoneWasLoaded(s.reg.workers[a]);
      if step.Take? {
        var e := s.threads[step.thread].entry;
        assert Holds(s, ThreadHolder(step.thread), e.worker, e.id);
      }
    }
  }

  lemma OwnKnownStep(s: Pool, step: Step)
    requires Identity(s) && OwnKnown(s) && Enabled(s, step)
    ensures OwnKnown(Apply(s, step))
  {
    hide WorkersKnown;
    if IsQuiet(step) {
      QuietStep(s, step);
    } else if step.Insert? || step.Load? || step.Take? {
      CountersGrow(s, step);
    }
  }

  lemma CountersGrow(s: Pool, step: Step)
    requires Enabled(s, step) && (step.Insert? || step.Load? || step.Take?)
    ensures forall a :: a in s.reg.workers ==>
              a in Apply(s, step).reg.workers && s.reg.workers[a].counter <= Apply(s, step).reg.workers[a].counter
  {
  }

  lemma NumbersFreshStep(s: Pool, step: Step)
    requires NumbersFresh(s) && Enabled(s, step)
    ensures NumbersFresh(Apply(s, step))
  {
  }

  lemma FlightKnownStep(s: Pool, step: Step)
    requires Flight(s) && Enabled(s, step)
    ensures FlightKnown(Apply(s, step))
  {
    var s' := Apply(s, step);
    if IsQuiet(step) {
      QuietStep(s, step);
    } else if step.Insert? || step.Load? || step.Take? {
      var a := OneWorkerStep(s, step);
    }
    forall h, a, id | Holds(s', h, a, id) && !h.GapHolder? && Clean(s', a)
      ensures id in s'.reg.workers[a].loaded
    {
      NewOrClean(s, step, a);
      if step == Create(a) {
        NothingOnItsWay(s, step, h, a, id);
      } else {
        IdMoved(s, step, h, a, id);
        var g := Origin(s, step, h);
        assert Holds(s, g, a, id);
        assert g.GapHolder? ==> step.Load? && s.callers[step.caller].worker == a;
      }
    }
  }

  /** Nothing is in flight to a worker that has just been created clean. */
  lemma NothingOnItsWay(s: Pool, step: Step, h: Holder, a: int, id: nat)
    requires Identity(s) && NumbersFresh(s) && Enabled(s, step) && step == Create(a) && Clean(Apply(s, step), a)
    ensures !Holds(Apply(s, step), h, a, id)
  {
    if Holds(Apply(s, step), h, a, id) && !h.GapHolder? {
      IdMoved(s, step, h, a, id);
    }
  }

  lemma NewOrClean(s: Pool, step: Step, a: int)
    requires Enabled(s, step) && Clean(Apply(s, step), a)
    ensures if a in s.reg.workers then Clean(s, a) else step == Create(a)
  {
    if IsQuiet(step) {
      QuietStep(s, step);
    }
  }

  lemma LoadedBefore(s: Pool, step: Step, a: int, id: nat)
    requires Flight(s) && Enabled(s, step) && Registered(Apply(s, step), a)
    requires id in Apply(s, step).reg.workers[a].packages && id in Apply(s, step).reg.workers[a].loaded
    requires !(step.Load? && s.callers[step.caller].worker == a && id == s.reg.workers[a].counter)
    ensures Registered(s, a) && id in s.reg.workers[a].packages && id in s.reg.workers[a].loaded
    ensures step.Take? ==> !Carries(s.threads[step.thread].entry, a, id)
  {
    if IsQuiet(step) {
      QuietStep(s, step);
    } else if step.Insert? && step.worker == a {
      assert LoadedExist(s.reg.workers[a]);
    }
  }

  lemma LoadedInFlightStep(s: Pool, step: Step)
    requires Flight(s) && Enabled(s, step)
    ensures LoadedInFlight(Apply(s, step))
  {
    hide FlightKnown, OwnKnown, UsersKnown, WorkersLoaded;
    var s' := Apply(s, step);
    forall a, id | Registered(s', a) && id in s'.reg.workers[a].packages && id in s'.reg.workers[a].loaded
      ensures Read(s', a, id)
    {
      if step.Load? && s.callers[step.caller].worker == a && id == s.reg.workers[a].counter {
        assert Holds(s', CallerHolder(step.caller), a, id);
      } else {
        LoadedBefore(s, step, a, id);
        assert Read(s, a, id);
        var h :| Holds(s, h, a, id) && !h.GapHolder?;
        IdMoves(s, step, h, a, id);
      }
    }
  }

  lemma FlightStep(s: Pool, step: Step)
    requires Flight(s) && Enabled(s, step)
    ensures Flight(Apply(s, step))
  {
    IdentityStep(s, step);
    OwnKnownStep(s, step);
    NumbersFreshStep(s, step);
    LoadedExistStep(s, step);
    GoneWasLoadedStep(s, step);
    FlightKnownStep(s, step);
    LoadedInFlightStep(s, step);
  }

  // ---------- Overlapping calls ----------

  /** While calls never overlap, at most one caller is in the gap, and every id but its own was read back. */
  ghost predicate Orderly(s: Pool, a: int)
    requires a in s.reg.workers
  {
    var w := s.reg.workers[a];
    && (forall c, d :: InGap(s, c, a) && InGap(s, d, a) ==> c == d)
    && (forall id :: 1 <= id < w.counter ==> id in w.loaded)
    && (w.counter > 0 ==> (w.counter in w.loaded <==> forall c :: !InGap(s, c, a)))
    && (forall c :: InGap(s, c, a) ==> s.callers[c].own == w.counter)
  }

  /** An id that has not been read back and, the counter having moved on, never will be. */
  predicate Missed(w: Worker, m: nat) {
    1 <= m < w.counter && m !in w.loaded
  }

  ghost predicate Counted(s: Pool, a: int)
    requires a in s.reg.workers
  {
    var w := s.reg.workers[a];
    && |w.loaded| + |Gap(s, a)| <= w.counter
    && (if w.crowded then exists m :: Missed(w, m) else Orderly(s, a))
  }

  ghost predicate AllCounted(s: Pool) {
    forall a :: a in s.reg.workers ==> Counted(s, a)
  }

  lemma GapStep(s: Pool, step: Step, a: int)
    requires Enabled(s, step)
    ensures Gap(Apply(s, step), a) ==
            if step.Insert? && step.worker == a then Gap(s, a) + {step.caller}
            else if step.Load? && s.callers[step.caller].worker == a then Gap(s, a) - {step.caller}
            else Gap(s, a)
    ensures forall c :: InGap(Apply(s, step), c, a) <==> c in Gap(Apply(s, step), a)
    ensures forall c :: InGap(s, c, a) <==> c in Gap(s, a)
  {
  }

  function Upto(n: nat): set<nat> {
    if n == 0 then {} else Upto(n - 1) + {n}
  }

  lemma {:induction false} UptoSize(n: nat)
    ensures |Upto(n)| == n && forall i :: i in Upto(n) <==> 1 <= i <= n
  {
    if n > 0 {
      UptoSize(n - 1);
    }
  }

  /** Fewer than n ids out of 1..n leave one out. */
  lemma OneIsLeftOut(ids: set<nat>, n: nat) returns (m: nat)
    requires (forall i :: i in ids ==> 1 <= i <= n) && |ids| < n
    ensures 1 <= m <= n && m !in ids
  {
    UptoSize(n);
    if Upto(n) <= ids {
      SubsetSize(Upto(n), ids);
      assert false;
    }
    m :| m in Upto(n) && m !in ids;
  }

  lemma {:induction false} SubsetSize(a: set<nat>, b: set<nat>)
    requires a <= b
    ensures |a| <= |b|
    decreases a
  {
    if a != {} {
      var x :| x in a;
      SubsetSize(a - {x}, b - {x});
    }
  }

  lemma InsertIs(s: Pool, step: Step)
    requires Enabled(s, step) && step.Insert?
    ensures
      var a, s' := step.worker, Apply(s, step);
      && a in s.reg.workers && a in s'.reg.workers && step.caller !in Gap(s, a)
      && s'.callers == s.callers[step.caller := Inserted(a, s.reg.workers[a].counter + 1, step.deadline)]
      && var w, w' := s.reg.workers[a], s'.reg.workers[a];
      w'.counter == w.counter + 1 && w'.loaded == w.loaded && w'.crowded == (w.crowded || Gap(s, a) != {})
  {
  }

  lemma InsertCounted(s: Pool, step: Step)
    requires Flight(s) && AllCounted(s) && Enabled(s, step) && step.Insert?
    ensures Counted(Apply(s, step), step.worker)
  {
    hide FlightKnown, LoadedInFlight, OwnKnown, UsersKnown, GoneWasLoaded, WorkersKnown, NumbersFresh, Apply, Enabled;
    InsertIs(s, step);
    var a := step.worker;
    var w, s' := s.reg.workers[a], Apply(s, step);
    var w' := s'.reg.workers[a];
    assert Counted(s, a) && LoadedExist(w);
    GapStep(s, step, a);
    if w.crowded {
      var m :| Missed(w, m);
      assert Missed(w', m);
    } else if Gap(s, a) != {} {
      var m := OneIsLeftOut(w.loaded, w.counter);
      assert Missed(w', m);
    } else {
      assert step.caller in Gap(s', a);
    }
  }

  lemma LoadCounted(s: Pool, step: Step)
    requires Flight(s) && AllCounted(s) && Enabled(s, step) && step.Load?
    ensures Counted(Apply(s, step), s.callers[step.caller].worker)
  {
    var a := s.callers[step.caller].worker;
    var w, s' := s.reg.workers[a], Apply(s, step);
    assert Counted(s, a) && LoadedExist(w) && InGap(s, step.caller, a);
    GapStep(s, step, a);
    assert step.caller in Gap(s, a);
    if w.crowded {
      var m :| Missed(w, m);
      assert Missed(s'.reg.workers[a], m);
    }
  }

  /** Every step but an insert or a read of this worker leaves its counter, ids and gap alone. */
  lemma SameBooks(s: Pool, step: Step, a: int)
    requires WorkersKnown(s) && Enabled(s, step) && a in s.reg.workers && a in Apply(s, step).reg.workers
    requires !(step.Insert? && step.worker == a) && !(step.Load? && s.callers[step.caller].worker == a)
    ensures
      var w, w' := s.reg.workers[a], Apply(s, step).reg.workers[a];
      w'.counter == w.counter && w'.loaded == w.loaded && w'.crowded == w.crowded && w'.asked == w.asked
  {
    if IsQuiet(step) {
      QuietStep(s, step);
    } else if step.Insert? || step.Load? || step.Take? {
      var b := OneWorkerStep(s, step);
    }
  }

  lemma SameGap(s: Pool, step: Step, a: int)
    requires Enabled(s, step)
    requires !(step.Insert? && step.worker == a) && !(step.Load? && s.callers[step.caller].worker == a)
    ensures forall c :: InGap(Apply(s, step), c, a) <==> InGap(s, c, a)
    ensures forall c :: InGap(s, c, a) ==> Apply(s, step).callers[c] == s.callers[c]
    ensures Gap(Apply(s, step), a) == Gap(s, a)
  {
    GapStep(s, step, a);
  }

  lemma UntouchedCounted(s: Pool, s': Pool, a: int)
    requires a in s.reg.workers && a in s'.reg.workers && Counted(s, a)
    requires s'.reg.workers[a].counter == s.reg.workers[a].counter
    requires s'.reg.workers[a].loaded == s.reg.workers[a].loaded && s'.reg.workers[a].crowded == s.reg.workers[a].crowded
    requires forall c :: InGap(s', c, a) <==> InGap(s, c, a)
    requires forall c :: InGap(s', c, a) ==> c in s.callers && s'.callers[c] == s.callers[c]
    requires Gap(s', a) == Gap(s, a)
    ensures Counted(s', a)
  {
    if s.reg.workers[a].crowded {
      var m :| Missed(s.reg.workers[a], m);
      assert Missed(s'.reg.workers[a], m);
    }
  }

  lemma NewWorkerCounted(s: Pool, step: Step, a: int)
    requires Identity(s) && Enabled(s, step) && step == Create(a)
    ensures Counted(Apply(s, step), a)
  {
    GapStep(s, step, a);
    assert Gap(s, a) == {};
  }

  lemma OldWorkerCounted(s: Pool, step: Step, a: int)
    requires Flight(s) && AllCounted(s) && Enabled(s, step) && a in s.reg.workers && a in Apply(s, step).reg.workers
    ensures Counted(Apply(s, step), a)
  {
    hide Apply, Counted, FlightKnown, LoadedInFlight, WorkersLoaded, UsersKnown;
    if step.Insert? && step.worker == a {
      InsertCounted(s, step);
    } else if step.Load? && s.callers[step.caller].worker == a {
      LoadCounted(s, step);
    } else {
      SameBooks(s, step, a);
      SameGap(s, step, a);
      UntouchedCounted(s, Apply(s, step), a);
    }
  }

  lemma AllCountedStep(s: Pool, step: Step)
    requires Flight(s) && AllCounted(s) && Enabled(s, step)
    ensures AllCounted(Apply(s, step))
  {
    hide Apply, Enabled, Counted;
    forall a | a in Apply(s, step).reg.workers
      ensures Counted(Apply(s, step), a)
    {
      CrowdedStep(s, step, a);
      if a in s.reg.workers {
        OldWorkerCounted(s, step, a);
      } else {
        NewWorkerCounted(s, step, a);
      }
    }
  }

  ghost predicate Lost(s: Pool, a: int, id: nat) {
    a in s.reg.workers && id in s.reg.workers[a].packages && !InFlight(s, a, id)
  }

  lemma InFlightUnlessCrowded(s: Pool, a: int, id: nat)
    requires Flight(s) && AllCounted(s) && Registered(s, a) && id in s.reg.workers[a].packages && !s.reg.workers[a].crowded
    ensures InFlight(s, a, id)
  {
    var w := s.reg.workers[a];
    assert Counted(s, a) && PackagesKnown(w);
    if id in w.loaded {
      assert Read(s, a, id);
    } else {
      var c :| InGap(s, c, a);
      assert Holds(s, GapHolder(c), a, id);
    }
  }

  /** A stored package of a registered worker is lost only if calls were crowded. */
  lemma LostOnlyWhenCrowded(s: Pool, a: int, id: nat)
    requires Flight(s) && AllCounted(s) && Registered(s, a) && Lost(s, a, id)
    ensures s.reg.workers[a].crowded
  {
    hide Flight, AllCounted, InFlight;
    if !s.reg.workers[a].crowded {
      InFlightUnlessCrowded(s, a, id);
    }
  }

  lemma LostExactlyWhenCrowded(s: Pool, a: int)
    requires Flight(s) && AllCounted(s) && Registered(s, a) && Clean(s, a)
    ensures (exists id :: Lost(s, a, id)) <==> s.reg.workers[a].crowded
  {
    var w := s.reg.workers[a];
    if w.crowded {
      assert Counted(s, a) && GoneWasLoaded(w);
      var m :| Missed(w, m);
      assert Lost(s, a, m);
    }
    if id :| Lost(s, a, id) {
      LostOnlyWhenCrowded(s, a, id);
    }
  }

  lemma InitialFlight(clock: int, n: nat)
    ensures Flight(Initial(clock, n)) && AllCounted(Initial(clock, n))
  {
  }

  lemma GenerationsGrow(s: Pool, step: Step)
    requires Enabled(s, step)
    ensures s.reg.generations <= Apply(s, step).reg.generations
  {
    if IsQuiet(step) {
      QuietStep(s, step);
    }
  }

  lemma {:induction false} RunKeepsFlight(n: nat, ss: seq<Pool>, steps: seq<Step>, i: nat)
    requires IsRun(n, ss, steps) && i < |ss|
    ensures Flight(ss[i]) && AllCounted(ss[i])
  {
    hide Apply, Enabled, Flight, AllCounted, Initial;
    if i == 0 {
      InitialFlight(ss[0].clock, n);
    } else {
      assert Linked(ss, steps, i - 1);
      RunKeepsFlight(n, ss, steps, i - 1);
      FlightStep(ss[i - 1], steps[i - 1]);
      AllCountedStep(ss[i - 1], steps[i - 1]);
    }
  }

  /** An insert into worker a while another caller is between its own insert and its read. */
  predicate Overlaps(s: Pool, step: Step, a: int) {
    step.Insert? && step.worker == a && Gap(s, a) != {}
  }

  /** The worker at address a is the same object in both states. */
  predicate SameWorker(s: Pool, s': Pool, a: int) {
    a in s.reg.workers && a in s'.reg.workers && s.reg.workers[a].generation == s'.reg.workers[a].generation
  }

  lemma CrowdedStep(s: Pool, step: Step, a: int)
    requires WorkersKnown(s) && Enabled(s, step) && a in Apply(s, step).reg.workers
    ensures a in s.reg.workers ==>
              && SameWorker(s, Apply(s, step), a)
              && (Apply(s, step).reg.workers[a].crowded <==> s.reg.workers[a].crowded || Overlaps(s, step, a))
    ensures a !in s.reg.workers ==>
              && step == Create(a) && !Apply(s, step).reg.workers[a].crowded
              && Apply(s, step).reg.workers[a].generation == s.reg.generations
  {
    if IsQuiet(step) {
      QuietStep(s, step);
    } else if step.Insert? || step.Load? || step.Take? {
      var b := OneWorkerStep(s, step);
    }
  }

  lemma {:induction false} EarlierIsOlder(n: nat, ss: seq<Pool>, steps: seq<Step>, t: nat, i: nat)
    requires IsRun(n, ss, steps) && t <= i < |ss|
    ensures ss[t].reg.generations <= ss[i].reg.generations
    decreases i
  {
    hide Apply, Enabled;
    if t < i {
      EarlierIsOlder(n, ss, steps, t, i - 1);
      assert Linked(ss, steps, i - 1);
      GenerationsGrow(ss[i - 1], steps[i - 1]);
    }
  }

  /** Two calls of the worker that is at address a in ss[i] overlapped before. */
  ghost predicate Overlapped(ss: seq<Pool>, steps: seq<Step>, i: nat, a: int)
    requires |ss| == |steps| + 1 && i < |ss|
  {
    exists t :: 0 <= t < i && Overlaps(ss[t], steps[t], a) && SameWorker(ss[t], ss[i], a)
  }

  lemma {:induction false} CrowdedMeansOverlap(n: nat, ss: seq<Pool>, steps: seq<Step>, i: nat, a: int)
    requires IsRun(n, ss, steps) && i < |ss| && a in ss[i].reg.workers
    ensures ss[i].reg.workers[a].crowded <==> Overlapped(ss, steps, i, a)
  {
    if i > 0 {
      hide Apply, Enabled, AllCounted, Overlaps, WorkersLoaded, FlightKnown, LoadedInFlight, UsersKnown, WorkersKnown;
      var s, step := ss[i - 1], steps[i - 1];
      assert Linked(ss, steps, i - 1);
      RunKeepsFlight(n, ss, steps, i - 1);
      CrowdedStep(s, step, a);
      if a in s.reg.workers {
        CrowdedMeansOverlap(n, ss, steps, i - 1, a);
        OverlappedStep(ss, steps, i, a);
      } else {
        NewIsNotOverlapped(n, ss, steps, i, a);
      }
    }
  }

  lemma OverlappedStep(ss: seq<Pool>, steps: seq<Step>, i: nat, a: int)
    requires |ss| == |steps| + 1 && 0 < i < |ss| && SameWorker(ss[i - 1], ss[i], a)
    ensures Overlapped(ss, steps, i, a) <==> Overlapped(ss, steps, i - 1, a) || Overlaps(ss[i - 1], steps[i - 1], a)
  {
    hide Overlaps;
    if Overlapped(ss, steps, i - 1, a) {
      var t :| 0 <= t < i - 1 && Overlaps(ss[t], steps[t], a) && SameWorker(ss[t], ss[i - 1], a);
      assert SameWorker(ss[t], ss[i], a);
    }
    if t :| 0 <= t < i && Overlaps(ss[t], steps[t], a) && SameWorker(ss[t], ss[i], a) {
      assert SameWorker(ss[t], ss[i - 1], a);
    }
  }

  lemma NewIsNotOverlapped(n: nat, ss: seq<Pool>, steps: seq<Step>, i: nat, a: int)
    requires IsRun(n, ss, steps) && 0 < i < |ss| && a in ss[i].reg.workers
    requires ss[i].reg.workers[a].generation == ss[i - 1].reg.generations
    ensures !Overlapped(ss, steps, i, a)
  {
    hide Apply, Enabled, Overlaps, AllCounted, UsersKnown, WorkersLoaded, FlightKnown, LoadedInFlight;
    forall t | 0 <= t < i
      ensures !SameWorker(ss[t], ss[i], a)
    {
      RunKeepsFlight(n, ss, steps, t);
      EarlierIsOlder(n, ss, steps, t, i - 1);
    }
  }

  /** In every run a registered worker has lost a package only if two of its schedule calls have overlapped between
      storing the package and reading the counter, whatever was at its address before. */
  lemma LossMeansOverlap(n: nat, ss: seq<Pool>, steps: seq<Step>, i: nat, a: int, id: nat)
    requires IsRun(n, ss, steps) && i < |ss| && Registered(ss[i], a) && Lost(ss[i], a, id)
    ensures Overlapped(ss, steps, i, a)
  {
    RunKeepsFlight(n, ss, steps, i);
    LostOnlyWhenCrowded(ss[i], a, id);
    CrowdedMeansOverlap(n, ss, steps, i, a);
  }

  /** And if nothing was on its way to its address when it was created, then it has lost one if and only if they have. */
  lemma LossLaw(n: nat, ss: seq<Pool>, steps: seq<Step>, i: nat, a: int)
    requires IsRun(n, ss, steps) && i < |ss| && Registered(ss[i], a) && Clean(ss[i], a)
    ensures (exists id :: Lost(ss[i], a, id)) <==> Overlapped(ss, steps, i, a)
  {
    RunKeepsFlight(n, ss, steps, i);
    LostExactlyWhenCrowded(ss[i], a);
    CrowdedMeansOverlap(n, ss, steps, i, a);
  }

  /** The loss happens: the second call moves the counter on before the first has read it. */
  lemma OverlapLoses(n: nat) returns (ss: seq<Pool>, steps: seq<Step>)
    ensures IsRun(n, ss, steps) && |steps| == 3 && Registered(ss[3], 0) && Clean(ss[3], 0)
    ensures Overlaps(ss[2], steps[2], 0) && Lost(ss[3], 0, 1) && !Lost(ss[3], 0, 2)
  {
    ss, steps := [Initial(0, n)], [];
    ss, steps := Extend(n, ss, steps, Create(0));
    ss, steps := Extend(n, ss, steps, Insert(0, 0, 7, 5));
    assert InGap(ss[2], 0, 0);
    assert 0 in Gap(ss[2], 0);
    ss, steps := Extend(n, ss, steps, Insert(1, 0, 8, 6));
    assert Holds(ss[3], GapHolder(0), 0, 2);
  }

  /** A worker at address 0 is removed and destroyed with an entry for its package 1 left in the queue, and another
      one is created there. */
  lemma LeftBehind(n: nat) returns (ss: seq<Pool>, steps: seq<Step>)
    ensures IsRun(n, ss, steps)
    ensures
      var s := ss[|ss| - 1];
      && s.clock == 0 && s.running && s.callers == map[] && s.queue == map[0 := Entry(5, 0, 1)] && s.enqueued == 1
      && s.threads == seq(n, _ => AtLoop) && Registered(s, 0) && !Clean(s, 0)
      && s.reg.workers[0] == Worker(0, map[], 1, {}, map[], false) && s.reg.ran == []
  {
    ss, steps := [Initial(0, n)], [];
    ss, steps := Extend(n, ss, steps, Create(0));
    ss, steps := Extend(n, ss, steps, Insert(0, 0, 7, 5));
    ss, steps := Extend(n, ss, steps, Load(0));
    ss, steps := Extend(n, ss, steps, Enqueue(0));
    ss, steps := Extend(n, ss, steps, RemoveCallback(0));
    ss, steps := Extend(n, ss, steps, Destroy(0));
    var s := ss[|ss| - 1];
    assert 0 in s.queue && s.queue[0].worker == 0;
    assert OnItsWay(s, 0);
    ss, steps := Extend(n, ss, steps, Create(0));
  }

  /** At a stale address an overlap need not lose a package: the entry left behind stands in for the one that is
      missing. */
  lemma LeftBehindStandsIn(n: nat) returns (ss: seq<Pool>, steps: seq<Step>)
    ensures IsRun(n, ss, steps) && |ss| >= 2
    ensures
      var i := |ss| - 1;
      Registered(ss[i], 0) && !Clean(ss[i], 0) && Overlapped(ss, steps, i, 0) && forall id :: !Lost(ss[i], 0, id)
  {
    ss, steps := LeftBehind(n);
    ss, steps := Extend(n, ss, steps, Insert(0, 0, 7, 9));
    var t := |steps|;
    assert InGap(ss[t], 0, 0);
    assert 0 in Gap(ss[t], 0);
    ss, steps := Extend(n, ss, steps, Insert(1, 0, 8, 9));
    var s := ss[t + 1];
    assert Overlaps(ss[t], steps[t], 0) && SameWorker(ss[t], s, 0);
    assert Holds(s, QueueHolder(0), 0, 1) && Holds(s, GapHolder(0), 0, 2);
    assert InFlight(s, 0, 1) && InFlight(s, 0, 2);
  }
}
