/** The deadline worker pool (power-libperfmgr/aidl/BackgroundWorker.h and .cpp) as a machine over
    interleaved steps. A step is one critical section, or one access made outside any lock. */
module WorkerPool {
  import opened Options

  /** PriorityQueueWorkerPool::Package. */
  datatype Entry = Entry(deadline: int, worker: int, id: nat)

  /** Package::operator<, which puts the earliest deadline at the top of the priority queue. */
  predicate Less(p: Entry, q: Entry) {
    p.deadline > q.deadline
  }

  /** The entries in the priority queue, under the numbers they were enqueued with. */
  type Queue = map<nat, Entry>

  predicate IsTop(queue: Queue, t: nat) {
    t in queue && forall u :: u in queue ==> !Less(queue[t], queue[u])
  }

  /** A live TemplatePriorityQueueWorker. `counter` and `packages` are the source's fields; the rest is
      history: which object at this address it is, the ids read back by `schedule`, the deadlines asked
      for, and whether two `schedule` calls were ever between insert and read at once. */
  datatype Worker = Worker(counter: nat, packages: map<nat, int>,
                           generation: nat, loaded: set<nat>, asked: map<nat, int>, crowded: bool)

  /** A thread inside TemplatePriorityQueueWorker::schedule: after its package is stored, and after it
      has read the id counter (outside the lock) but not yet entered the pool's queue. */
  datatype Caller = Inserted(worker: int, own: nat, deadline: int) | Loaded(worker: int, id: nat, deadline: int)

  /** A pool thread in `loop`; `until` is None while it waits for time_point::max. */
  datatype Thread =
    | AtLoop
    | Waiting(until: Option<int>)
    | Popped(entry: Entry)
    | Inside(entry: Entry)
    | Calling(entry: Entry)
    | Exited

  /** A package that was taken and handed to its callback. */
  datatype Run = Run(generation: nat, id: nat, payload: int)

  /** The callback map and the live workers, with the history of both. At a stale address the present worker was
      created while an entry for an earlier one was still on its way. */
  datatype Registry = Registry(callbacks: set<int>, workers: map<int, Worker>,
                               generations: nat, stale: set<int>, ran: seq<Run>)

  datatype Pool = Pool(
    clock: int, running: bool, queue: Queue, enqueued: nat,
    callers: map<nat, Caller>, threads: seq<Thread>, reg: Registry)

  datatype Step =
    | Tick(now: int)
    | Create(worker: int)
    | RemoveCallback(worker: int)
    | Destroy(worker: int)
    | Insert(caller: nat, worker: int, payload: int, deadline: int)
    | Load(caller: nat)
    | Enqueue(caller: nat)
    | Enter(thread: nat, top: Option<nat>)
    | Wake(thread: nat, top: Option<nat>)
    | Timeout(thread: nat, top: Option<nat>)
    | LookUp(thread: nat)
    | Take(thread: nat)
    | Return(thread: nat)
    | Stop

  function Initial(clock: int, threadCount: nat): Pool {
    Pool(clock, true, map[], 0, map[], seq(threadCount, _ => AtLoop), Registry({}, map[], 0, {}, []))
  }

  predicate HoldsSharedLock(t: Thread) {
    t.Inside? || t.Calling?
  }

  /** `top` is a possible top of the queue, None when the queue is empty. */
  predicate CanPop(s: Pool, top: Option<nat>) {
    match top
    case None => forall t :: t !in s.queue
    case Some(t) => IsTop(s.queue, t)
  }

  predicate Enabled(s: Pool, step: Step) {
    match step
    case Tick(now) => s.clock <= now
    case Create(a) => a !in s.reg.workers
    case RemoveCallback(a) =>
      a in s.reg.callbacks && forall k :: 0 <= k < |s.threads| ==> !HoldsSharedLock(s.threads[k])
    case Destroy(a) =>
      a in s.reg.workers && a !in s.reg.callbacks && forall c :: c in s.callers ==> s.callers[c].worker != a
    case Insert(c, a, _, _) => c !in s.callers && a in s.reg.workers
    case Load(c) => c in s.callers && s.callers[c].Inserted? && s.callers[c].worker in s.reg.workers
    case Enqueue(c) => c in s.callers && s.callers[c].Loaded?
    case Enter(k, top) => k < |s.threads| && s.threads[k].AtLoop? && CanPop(s, top)
    case Wake(k, top) => k < |s.threads| && s.threads[k].Waiting? && CanPop(s, top)
    case Timeout(k, top) =>
      && k < |s.threads| && s.threads[k].Waiting? && CanPop(s, top)
      && s.threads[k].until.Some? && s.threads[k].until.value <= s.clock
    case LookUp(k) => k < |s.threads| && s.threads[k].Popped?
    case Take(k) => k < |s.threads| && s.threads[k].Inside? && s.threads[k].entry.worker in s.reg.workers
    case Return(k) => k < |s.threads| && s.threads[k].Calling?
    case Stop => true
  }

  function Go(s: Pool, k: nat, t: Thread): Pool
    requires k < |s.threads|
  {
    s.(threads := s.threads[k := t])
  }

  function PopTop(s: Pool, k: nat, t: nat): Pool
    requires k < |s.threads| && t in s.queue
  {
    s.(threads := s.threads[k := Popped(s.queue[t])], queue := s.queue - {t})
  }

  /** The wait predicate evaluated under the pool's mutex, going on to pop when it is true. */
  function TestAndPop(s: Pool, k: nat, top: Option<nat>): Pool
    requires k < |s.threads| && CanPop(s, top)
  {
    if !s.running then Go(s, k, Exited)
    else
      match top
      case None => Go(s, k, Waiting(None))
      case Some(t) =>
        if s.queue[t].deadline > s.clock then Go(s, k, Waiting(Some(s.queue[t].deadline)))
        else PopTop(s, k, t)
  }

  predicate InGap(s: Pool, c: nat, a: int) {
    c in s.callers && s.callers[c].Inserted? && s.callers[c].worker == a
  }

  function Gap(s: Pool, a: int): set<nat> {
    set c | c in s.callers && InGap(s, c, a)
  }

  predicate OnItsWay(s: Pool, a: int) {
    || (exists t :: t in s.queue && s.queue[t].worker == a)
    || (exists k :: 0 <= k < |s.threads| && (s.threads[k].Popped? || s.threads[k].Inside?) && s.threads[k].entry.worker == a)
  }

  function Apply(s: Pool, step: Step): Pool
    requires Enabled(s, step)
  {
    match step
    case Tick(now) => s.(clock := now)
    case Create(a) =>
      var r := s.reg;
      s.(reg := Registry(r.callbacks + {a}, r.workers[a := Worker(0, map[], r.generations, {}, map[], false)],
                  r.generations + 1, if OnItsWay(s, a) then r.stale + {a} else r.stale - {a}, r.ran))
    case RemoveCallback(a) => s.(reg := s.reg.(callbacks := s.reg.callbacks - {a}))
    case Destroy(a) => s.(reg := s.reg.(workers := s.reg.workers - {a}))
    case Insert(c, a, payload, deadline) =>
      var w := s.reg.workers[a];
      var id := w.counter + 1;
      var w' := Worker(id, w.packages[id := payload], w.generation, w.loaded,
                       w.asked[id := deadline], w.crowded || Gap(s, a) != {});
      s.(reg := s.reg.(workers := s.reg.workers[a := w']), callers := s.callers[c := Inserted(a, id, deadline)])
    case Load(c) =>
      var a := s.callers[c].worker;
      var w := s.reg.workers[a];
      s.(reg := s.reg.(workers := s.reg.workers[a := w.(loaded := w.loaded + {w.counter})]),
      callers := s.callers[c := Loaded(a, w.counter, s.callers[c].deadline)])
    case Enqueue(c) =>
      var x := s.callers[c];
      s.(queue := s.queue[s.enqueued := Entry(x.deadline, x.worker, x.id)], enqueued := s.enqueued + 1,
      callers := s.callers - {c})
    case Enter(k, top) => TestAndPop(s, k, top)
    case Wake(k, top) => TestAndPop(s, k, top)
    case Timeout(k, top) =>
      if !s.running then Go(s, k, Exited)
      else if top.None? then Go(s, k, AtLoop)
      else PopTop(s, k, top.value)
    case LookUp(k) =>
      var e := s.threads[k].entry;
      Go(s, k, if e.worker in s.reg.callbacks then Inside(e) else AtLoop)
    case Take(k) =>
      var e := s.threads[k].entry;
      var w := s.reg.workers[e.worker];
      if e.id !in w.packages then Go(s, k, AtLoop)
      else
        s.(threads := s.threads[k := Calling(e)],
        reg := s.reg.(workers := s.reg.workers[e.worker := w.(packages := w.packages - {e.id})],
                ran := s.reg.ran + [Run(w.generation, e.id, w.packages[e.id])]))
    case Return(k) => Go(s, k, AtLoop)
    case Stop => s.(running := false)
  }

  /** Step i of the run leads from state i to state i + 1. */
  predicate Linked(ss: seq<Pool>, steps: seq<Step>, i: nat)
    requires i < |steps| && |ss| == |steps| + 1
  {
    Enabled(ss[i], steps[i]) && ss[i + 1] == Apply(ss[i], steps[i])
  }

  /** ss is a run of the pool with `threadCount` threads, making the given steps. */
  ghost predicate IsRun(threadCount: nat, ss: seq<Pool>, steps: seq<Step>) {
    && |ss| == |steps| + 1
    && ss[0] == Initial(ss[0].clock, threadCount)
    && forall i :: 0 <= i < |steps| ==> Linked(ss, steps, i)
  }

  /** A run goes on with any enabled step. */
  lemma Extend(n: nat, ss: seq<Pool>, steps: seq<Step>, step: Step) returns (ss': seq<Pool>, steps': seq<Step>)
    requires IsRun(n, ss, steps) && Enabled(ss[|ss| - 1], step)
    ensures IsRun(n, ss', steps') && steps' == steps + [step] && ss' == ss + [Apply(ss[|ss| - 1], step)]
  {
    ss', steps' := ss + [Apply(ss[|ss| - 1], step)], steps + [step];
    forall i | 0 <= i < |steps'|
      ensures Linked(ss', steps', i)
    {
      if i < |steps| {
        assert Linked(ss, steps, i);
      }
    }
  }

  // ---------- At most once, and nothing runs after removal ----------

  predicate PackagesKnown(w: Worker) {
    forall id :: id in w.packages ==> 1 <= id <= w.counter && id in w.asked
  }

  ghost predicate WorkersKnown(s: Pool) {
    && s.reg.callbacks <= s.reg.workers.Keys
    && (forall a :: a in s.reg.workers ==> s.reg.workers[a].generation < s.reg.generations && PackagesKnown(s.reg.workers[a]))
    && (forall a, b :: a in s.reg.workers && b in s.reg.workers && a != b ==>
                         s.reg.workers[a].generation != s.reg.workers[b].generation)
  }

  ghost predicate UsersKnown(s: Pool) {
    && (forall c :: c in s.callers ==> s.callers[c].worker in s.reg.workers)
    && (forall k :: 0 <= k < |s.threads| && HoldsSharedLock(s.threads[k]) ==> s.threads[k].entry.worker in s.reg.callbacks)
  }

  ghost predicate Identity(s: Pool) {
    WorkersKnown(s) && UsersKnown(s)
  }

  predicate RanIsPast(s: Pool, r: Run) {
    && r.generation < s.reg.generations
    && forall a :: a in s.reg.workers && s.reg.workers[a].generation == r.generation ==>
                     r.id <= s.reg.workers[a].counter && r.id !in s.reg.workers[a].packages
  }

  predicate SamePackage(r: Run, q: Run) {
    r.generation == q.generation && r.id == q.id
  }

  ghost predicate RanOnce(s: Pool) {
    && (forall i :: 0 <= i < |s.reg.ran| ==> RanIsPast(s, s.reg.ran[i]))
    && (forall i, j :: 0 <= i < j < |s.reg.ran| ==> !SamePackage(s.reg.ran[i], s.reg.ran[j]))
  }

  /** The steps that leave the set of workers and all their fields alone. */
  predicate IsQuiet(step: Step) {
    !step.Create? && !step.RemoveCallback? && !step.Destroy? && !step.Insert? && !step.Load? && !step.Take?
  }

  lemma QuietStep(s: Pool, step: Step)
    requires Enabled(s, step) && IsQuiet(step)
    ensures Apply(s, step).reg == s.reg
  {
  }

  /** The steps that replace one worker's fields. */
  lemma OneWorkerStep(s: Pool, step: Step) returns (a: int)
    requires WorkersKnown(s) && Enabled(s, step) && (step.Insert? || step.Load? || step.Take?)
    ensures
      var s' := Apply(s, step);
      && a in s.reg.workers && a in s'.reg.workers && s'.reg.workers == s.reg.workers[a := s'.reg.workers[a]]
      && s'.reg.callbacks == s.reg.callbacks && s'.reg.generations == s.reg.generations
      && s'.reg.stale == s.reg.stale
      && s'.reg.workers[a].generation == s.reg.workers[a].generation
      && PackagesKnown(s'.reg.workers[a])
  {
    a := if step.Insert? then step.worker
         else if step.Load? then s.callers[step.caller].worker
         else s.threads[step.thread].entry.worker;
    assert PackagesKnown(s.reg.workers[a]);
    var s' := Apply(s, step);
    assert s'.reg.workers == s.reg.workers[a := s'.reg.workers[a]];
  }

  lemma WorkersKnownStep(s: Pool, step: Step)
    requires WorkersKnown(s) && Enabled(s, step)
    ensures WorkersKnown(Apply(s, step))
  {
    if IsQuiet(step) {
      QuietStep(s, step);
    } else if step.Insert? || step.Load? || step.Take? {
      var a := OneWorkerStep(s, step);
    }
  }

  lemma CallersKnownStep(s: Pool, step: Step)
    requires Identity(s) && Enabled(s, step)
    ensures forall c :: c in Apply(s, step).callers ==> Apply(s, step).callers[c].worker in Apply(s, step).reg.workers
  {
    if IsQuiet(step) {
      QuietStep(s, step);
    } else if step.Insert? || step.Load? || step.Take? {
      var a := OneWorkerStep(s, step);
    }
  }

  lemma UsersKnownStep(s: Pool, step: Step)
    requires Identity(s) && Enabled(s, step)
    ensures UsersKnown(Apply(s, step))
  {
    CallersKnownStep(s, step);
    if IsQuiet(step) {
      QuietStep(s, step);
    } else if step.Insert? || step.Load? || step.Take? {
      var a := OneWorkerStep(s, step);
    }
  }

  lemma IdentityStep(s: Pool, step: Step)
    requires Identity(s) && Enabled(s, step)
    ensures Identity(Apply(s, step))
  {
    WorkersKnownStep(s, step);
    UsersKnownStep(s, step);
  }

  lemma TakeRanOnce(s: Pool, step: Step)
    requires WorkersKnown(s) && RanOnce(s) && Enabled(s, step) && step.Take?
    ensures RanOnce(Apply(s, step))
  {
    var e := s.threads[step.thread].entry;
    var w := s.reg.workers[e.worker];
    var s' := Apply(s, step);
    if e.id in w.packages {
      assert PackagesKnown(w);
      forall i | 0 <= i < |s.reg.ran|
        ensures RanIsPast(s', s.reg.ran[i]) && !SamePackage(s.reg.ran[i], Run(w.generation, e.id, w.packages[e.id]))
      {
        assert RanIsPast(s, s.reg.ran[i]);
      }
      assert RanIsPast(s', Run(w.generation, e.id, w.packages[e.id]));
    }
  }

  lemma RanOnceStep(s: Pool, step: Step)
    requires WorkersKnown(s) && RanOnce(s) && Enabled(s, step)
    ensures RanOnce(Apply(s, step))
  {
    var s' := Apply(s, step);
    if step.Take? {
      TakeRanOnce(s, step);
    } else if IsQuiet(step) {
      QuietStep(s, step);
      assert forall r :: RanIsPast(s', r) <==> RanIsPast(s, r);
    } else {
      assert s'.reg.ran == s.reg.ran;
      forall i | 0 <= i < |s.reg.ran|
        ensures RanIsPast(s', s.reg.ran[i])
      {
        assert RanIsPast(s, s.reg.ran[i]);
      }
    }
  }

  lemma {:induction false} RunKeepsIdentity(n: nat, ss: seq<Pool>, steps: seq<Step>, i: nat)
    requires IsRun(n, ss, steps) && i < |ss|
    ensures Identity(ss[i]) && RanOnce(ss[i])
  {
    if i > 0 {
      hide Apply, Enabled, Identity, RanOnce;
      assert Linked(ss, steps, i - 1);
      RunKeepsIdentity(n, ss, steps, i - 1);
      IdentityStep(ss[i - 1], steps[i - 1]);
      RanOnceStep(ss[i - 1], steps[i - 1]);
    }
  }

  /** In every interleaving, with any number of threads, no package runs its callback twice. */
  lemma AtMostOnce(n: nat, ss: seq<Pool>, steps: seq<Step>, t: nat, i: nat, j: nat)
    requires IsRun(n, ss, steps) && t < |ss| && i < j < |ss[t].reg.ran|
    ensures !SamePackage(ss[t].reg.ran[i], ss[t].reg.ran[j])
  {
    RunKeepsIdentity(n, ss, steps, t);
  }

  predicate Engaged(s: Pool, k: nat, a: int) {
    k < |s.threads| && HoldsSharedLock(s.threads[k]) && s.threads[k].entry.worker == a
  }

  lemma StaysRemoved(s: Pool, step: Step, a: int)
    requires Enabled(s, step) && step != Create(a)
    requires step == RemoveCallback(a) || a !in s.reg.callbacks
    ensures a !in Apply(s, step).reg.callbacks
  {
    if IsQuiet(step) {
      QuietStep(s, step);
    }
  }

  lemma {:induction false} RemovedUntilCreated(n: nat, ss: seq<Pool>, steps: seq<Step>, a: int, i: nat, j: nat)
    requires IsRun(n, ss, steps) && i < j < |ss|
    requires steps[i] == RemoveCallback(a)
    requires forall t :: i < t < j ==> steps[t] != Create(a)
    ensures a !in ss[j].reg.callbacks
    decreases j
  {
    hide Apply, Enabled;
    assert Linked(ss, steps, j - 1);
    if j > i + 1 {
      RemovedUntilCreated(n, ss, steps, a, i, j - 1);
    }
    StaysRemoved(ss[j - 1], steps[j - 1], a);
  }

  /** Once removeCallback(a) is done, no thread is in the callback of a, nor enters it, until a is added
      again; the worker itself may still be alive, with packages stored and calls of schedule open. */
  lemma NothingAfterRemoval(n: nat, ss: seq<Pool>, steps: seq<Step>, a: int, i: nat, j: nat)
    requires IsRun(n, ss, steps) && i < j < |ss|
    requires steps[i] == RemoveCallback(a)
    requires forall t :: i < t < j ==> steps[t] != Create(a)
    ensures a !in ss[j].reg.callbacks && forall k :: !Engaged(ss[j], k, a)
  {
    RunKeepsIdentity(n, ss, steps, j);
    RemovedUntilCreated(n, ss, steps, a, i, j);
  }
}
