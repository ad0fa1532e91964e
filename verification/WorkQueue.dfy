/**
 The worker pool of src/Util/WorkQueue: a mutex, a condition variable, a FIFO
 task vector and N worker threads.

 The pool is an interleaving transition system. One step is one critical
 section, or one access to the running flag, of one thread. `Apply` says what
 each step does; the class at the end holds the fields of the source and
 performs the steps in place.
 */
module WorkQueue {

  /** Where a worker thread is in `_workThread`.
      `AtLock` covers both the first `lock()` and a woken `wait` that has to take
      the mutex again: in both cases the next thing it does is test the queue. */
  datatype Worker<T> =
    | NoThread
    | AtTest
    | AtLock
    | Asleep
    | Busy(job: T)
    | Exited

  /** `submitted` and `started` are history: every task handed to `queueTask` in
      the order it entered the vector, and every (worker, task) pair in the order
      the tasks were taken out. `notifies` counts `queueTask` calls that have
      pushed but not yet reached `notify_one`. */
  datatype State<T> = State(
    running: bool,
    tasks: seq<T>,
    workers: seq<Worker<T>>,
    notifies: nat,
    submitted: seq<T>,
    started: seq<(nat, T)>)

  datatype Step<T> =
    | SetFlag                // start(): m_running = true
    | Spawn(w: nat)          // start(): thr = std::thread(...)
    | ClearFlag              // stop(): m_running = false
    | NotifyAll              // stop(): notify_all()
    | Join(w: nat)           // stop(): join() of a finished thread
    | Resize(n: nat)         // setWorkerCount(): m_workThreads.resize
    | Push(task: T)          // queueTask(): push under the lock
    | NotifyOne(w: nat)      // queueTask(): notify_one(), waking worker w
    | Test(w: nat)           // _workThread(): while (m_running)
    | Lock(w: nat)           // _workThread(): lock, predicate, take or sleep
    | Wake(w: nat)           // a spurious wake-up
    | Finish(w: nat)         // _workThread(): job() returned

  /** A pool as constructed: `WorkQueue(aCount)`, where 0 stands for 4. */
  function Fresh<T>(count: nat): State<T> {
    var n := if count == 0 then 4 else count;
    State(false, [], seq(n, i => NoThread), 0, [], [])
  }

  predicate Idle<T>(s: State<T>) {
    forall w :: 0 <= w < |s.workers| ==> s.workers[w].NoThread?
  }

  predicate SomeAsleep<T>(ws: seq<Worker<T>>) {
    exists w :: 0 <= w < |ws| && ws[w].Asleep?
  }

  predicate Enabled<T>(s: State<T>, step: Step<T>) {
    match step
    case SetFlag => Idle(s)
    case Spawn(w) => s.running && w < |s.workers| && s.workers[w].NoThread?
    case ClearFlag => true
    case NotifyAll => true
    case Join(w) => w < |s.workers| && s.workers[w].Exited?
    case Resize(n) => !s.running && Idle(s)
    case Push(_) => true
    case NotifyOne(w) =>
      s.notifies > 0 && (SomeAsleep(s.workers) ==> w < |s.workers| && s.workers[w].Asleep?)
    case Test(w) => w < |s.workers| && s.workers[w].AtTest?
    case Lock(w) => w < |s.workers| && s.workers[w].AtLock?
    case Wake(w) => w < |s.workers| && s.workers[w].Asleep?
    case Finish(w) => w < |s.workers| && s.workers[w].Busy?
  }

  function Woken<T>(p: Worker<T>): Worker<T> {
    if p.Asleep? then AtLock else p
  }

  function WokenAll<T>(ws: seq<Worker<T>>): seq<Worker<T>> {
    seq(|ws|, i requires 0 <= i < |ws| => Woken(ws[i]))
  }

  function Apply<T>(s: State<T>, step: Step<T>): State<T>
    requires Enabled(s, step)
  {
    match step
    case SetFlag => s.(running := true)
    case Spawn(w) => s.(workers := s.workers[w := AtTest])
    case ClearFlag => s.(running := false)
    case NotifyAll => s.(workers := WokenAll(s.workers))
    case Join(w) => s.(workers := s.workers[w := NoThread])
    case Resize(n) => s.(workers := seq(n, i => NoThread))
    case Push(task) =>
      s.(tasks := s.tasks + [task], notifies := s.notifies + 1, submitted := s.submitted + [task])
    case NotifyOne(w) =>
      if SomeAsleep(s.workers) then s.(notifies := s.notifies - 1, workers := s.workers[w := AtLock])
      else s.(notifies := s.notifies - 1)
    case Test(w) => s.(workers := s.workers[w := if s.running then AtLock else Exited])
    case Lock(w) =>
      // The wait predicate only looks at the queue, never at the running flag.
      if s.tasks == [] then s.(workers := s.workers[w := Asleep])
      else s.(tasks := s.tasks[1..],
              workers := s.workers[w := Busy(s.tasks[0])],
              started := s.started + [(w, s.tasks[0])])
    case Wake(w) => s.(workers := s.workers[w := AtLock])
    case Finish(w) => s.(workers := s.workers[w := AtTest])
  }

  /** `run` is a legal interleaving from `s`. */
  predicate Legal<T>(s: State<T>, run: seq<Step<T>>)
    decreases |run|
  {
    run == [] || (Enabled(s, run[0]) && Legal(Apply(s, run[0]), run[1..]))
  }

  function After<T>(s: State<T>, run: seq<Step<T>>): State<T>
    requires Legal(s, run)
    decreases |run|
  {
    if run == [] then s else After(Apply(s, run[0]), run[1..])
  }

  // ---------- Counting workers ----------

  /** The sum of a weight over all workers. */
  function Total<T>(ws: seq<Worker<T>>, weight: Worker<T> -> int): int {
    if ws == [] then 0 else weight(ws[0]) + Total(ws[1..], weight)
  }

  function AsleepWeight<T>(p: Worker<T>): int { if p.Asleep? then 1 else 0 }

  /** Awake and not holding a job: it will look at the queue before it can sleep. */
  function ReadyWeight<T>(p: Worker<T>): int { if p.AtTest? || p.AtLock? then 1 else 0 }

  /** Past the test of the flag: it will not look at the flag again before it has had a task. */
  function CommittedWeight<T>(p: Worker<T>): int { if p.AtLock? || p.Asleep? then 1 else 0 }

  function EffortWeight<T>(p: Worker<T>): int {
    match p
    case NoThread => 3
    case Busy(_) => 3
    case AtTest => 2
    case AtLock => 1
    case Asleep => 0
    case Exited => 0
  }

  lemma {:induction false} TotalUpdate<T>(ws: seq<Worker<T>>, w: nat, p: Worker<T>, weight: Worker<T> -> int)
    requires w < |ws|
    ensures Total(ws[w := p], weight) == Total(ws, weight) - weight(ws[w]) + weight(p)
  {
    if w == 0 {
      assert ws[w := p][1..] == ws[1..];
    } else {
      TotalUpdate(ws[1..], w - 1, p, weight);
      assert ws[w := p][1..] == ws[1..][w - 1 := p];
    }
  }

  lemma {:induction false} TotalPointwise<T>(a: seq<Worker<T>>, b: seq<Worker<T>>, weight: Worker<T> -> int)
    requires |a| == |b|
    requires forall i :: 0 <= i < |a| ==> weight(a[i]) == weight(b[i])
    ensures Total(a, weight) == Total(b, weight)
  {
    if a != [] {
      TotalPointwise(a[1..], b[1..], weight);
    }
  }

  /** A non-negative weight has a non-negative sum, positive as soon as one worker weighs something. */
  lemma {:induction false} TotalBound<T>(ws: seq<Worker<T>>, weight: Worker<T> -> int)
    requires forall p :: weight(p) >= 0
    ensures Total(ws, weight) >= 0
    ensures Total(ws, weight) == 0 <==> forall w :: 0 <= w < |ws| ==> weight(ws[w]) == 0
  {
    if ws != [] {
      TotalBound(ws[1..], weight);
      assert forall w :: 1 <= w < |ws| ==> ws[w] == ws[1..][w - 1];
      assert forall w :: 0 <= w < |ws| - 1 ==> ws[1..][w] == ws[w + 1];
    }
  }

  function Sleepers<T>(s: State<T>): int { Total(s.workers, AsleepWeight) }
  function Ready<T>(s: State<T>): int { Total(s.workers, ReadyWeight) }

  /** Workers that still need a task before they can see a cleared flag, minus the tasks there are. */
  function Shortfall<T>(s: State<T>): int { Total(s.workers, CommittedWeight) - |s.tasks| }

  // ---------- No task is lost, repeated or reordered; no wake-up is lost ----------

  function Jobs<T>(started: seq<(nat, T)>): seq<T> {
    seq(|started|, i requires 0 <= i < |started| => started[i].1)
  }

  ghost predicate Fifo<T>(s: State<T>) {
    s.submitted == Jobs(s.started) + s.tasks
  }

  predicate NoLostWakeUp<T>(s: State<T>) {
    s.running && SomeAsleep(s.workers) ==> |s.tasks| <= Ready(s) + s.notifies
  }

  lemma FifoStep<T>(s: State<T>, step: Step<T>)
    requires Fifo(s) && Enabled(s, step)
    ensures Fifo(Apply(s, step))
  {
    if step.Lock? && s.tasks != [] {
      var s' := Apply(s, step);
      assert Jobs(s'.started) == Jobs(s.started) + [s.tasks[0]];
      assert s.tasks == [s.tasks[0]] + s.tasks[1..];
    }
  }

  lemma NoLostWakeUpStep<T>(s: State<T>, step: Step<T>)
    requires NoLostWakeUp(s) && Enabled(s, step)
    ensures NoLostWakeUp(Apply(s, step))
  {
    var s' := Apply(s, step);
    TotalBound(s.workers, ReadyWeight);
    TotalBound(s'.workers, ReadyWeight);
    match step
    case Spawn(w) => OneWorker(s, w, AtTest, ReadyWeight);
    case Join(w) => OneWorker(s, w, NoThread, ReadyWeight);
    case NotifyOne(w) => if SomeAsleep(s.workers) { OneWorker(s, w, AtLock, ReadyWeight); }
    case Test(w) => OneWorker(s, w, if s.running then AtLock else Exited, ReadyWeight);
    case Lock(w) =>
      if s.tasks != [] { OneWorker(s, w, Busy(s.tasks[0]), ReadyWeight); }
    case Wake(w) => OneWorker(s, w, AtLock, ReadyWeight);
    case Finish(w) => OneWorker(s, w, AtTest, ReadyWeight);
    case SetFlag =>
    case ClearFlag =>
    case NotifyAll => assert !SomeAsleep(s'.workers);
    case Resize(n) =>
    case Push(task) =>
  }

  /** Moving one worker to a place that is not `Asleep`: the sum changes by that worker only,
      and nobody else falls asleep. */
  lemma OneWorker<T>(s: State<T>, w: nat, p: Worker<T>, weight: Worker<T> -> int)
    requires w < |s.workers|
    ensures Total(s.workers[w := p], weight) == Total(s.workers, weight) - weight(s.workers[w]) + weight(p)
    ensures !p.Asleep? && SomeAsleep(s.workers[w := p]) ==> SomeAsleep(s.workers)
  {
    TotalUpdate(s.workers, w, p, weight);
    var ws := s.workers[w := p];
    if !p.Asleep? && SomeAsleep(ws) {
      var k :| 0 <= k < |ws| && ws[k].Asleep?;
      assert s.workers[k].Asleep?;
    }
  }

  /** Over every run of every pool: the tasks taken out, in the order they were taken, followed by
      the tasks still queued are exactly the tasks submitted; and while the pool runs with a worker
      asleep, every queued task is covered by an awake worker or by a notify still to come. */
  lemma {:induction false} RunKeepsTasks<T>(s: State<T>, run: seq<Step<T>>)
    requires Legal(s, run) && Fifo(s) && NoLostWakeUp(s)
    ensures Fifo(After(s, run)) && NoLostWakeUp(After(s, run))
    decreases |run|
  {
    if run != [] {
      FifoStep(s, run[0]);
      NoLostWakeUpStep(s, run[0]);
      RunKeepsTasks(Apply(s, run[0]), run[1..]);
    }
  }

  // ---------- The pool drains ----------

  /** The steps the pool takes by itself: nothing submitted, no spurious wake-up, nobody calling stop. */
  predicate Internal<T>(step: Step<T>) {
    step.Spawn? || step.NotifyOne? || step.Test? || step.Lock? || step.Finish?
  }

  /** No internal step is enabled. */
  predicate AtRest<T>(s: State<T>) {
    && s.notifies == 0
    && forall w :: 0 <= w < |s.workers| ==>
         s.workers[w].Asleep? || s.workers[w].Exited? || (s.workers[w].NoThread? && !s.running)
  }

  lemma AtRestIsNoInternalStep<T>(s: State<T>)
    ensures AtRest(s) <==> forall step :: Internal(step) ==> !Enabled(s, step)
  {
    if !AtRest(s) {
      if s.notifies > 0 {
        if SomeAsleep(s.workers) {
          var w :| 0 <= w < |s.workers| && s.workers[w].Asleep?;
          var step: Step<T> := NotifyOne(w);
          assert Internal(step) && Enabled(s, step);
        } else {
          var step: Step<T> := NotifyOne(0);
          assert Internal(step) && Enabled(s, step);
        }
      } else {
        var w: nat :| w < |s.workers| &&
                      !(s.workers[w].Asleep? || s.workers[w].Exited? || (s.workers[w].NoThread? && !s.running));
        var p := s.workers[w];
        var step: Step<T> :=
          if p.NoThread? then Spawn(w) else if p.AtTest? then Test(w) else if p.AtLock? then Lock(w) else Finish(w);
        assert Internal(step) && Enabled(s, step);
      }
    }
  }

  /** How many internal steps can be left. */
  function Effort<T>(s: State<T>): int {
    Total(s.workers, EffortWeight) + 3 * |s.tasks| + 2 * s.notifies
  }

  lemma InternalStepCosts<T>(s: State<T>, step: Step<T>)
    requires Enabled(s, step) && Internal(step)
    ensures 0 <= Effort(Apply(s, step)) < Effort(s)
  {
    var s' := Apply(s, step);
    TotalBound(s'.workers, EffortWeight);
    if s.workers != s'.workers {
      TotalUpdate(s.workers, step.w, s'.workers[step.w], EffortWeight);
    }
  }

  /** Left to itself the pool comes to rest: no run of internal steps is longer than its effort. */
  lemma {:induction false} InternalRunsEnd<T>(s: State<T>, run: seq<Step<T>>)
    requires Legal(s, run) && forall i :: 0 <= i < |run| ==> Internal(run[i])
    ensures |run| <= Effort(s)
    decreases |run|
  {
    if run == [] {
      TotalBound(s.workers, EffortWeight);
    } else {
      InternalStepCosts(s, run[0]);
      InternalRunsEnd(Apply(s, run[0]), run[1..]);
    }
  }

  /** While the flag is set no worker ever leaves its loop. */
  lemma {:induction false} RunningPoolKeepsWorkers<T>(s: State<T>, run: seq<Step<T>>)
    requires Legal(s, run) && s.running
    requires forall i :: 0 <= i < |run| ==> !run[i].ClearFlag?
    requires forall w :: 0 <= w < |s.workers| ==> !s.workers[w].Exited?
    ensures var e := After(s, run);
      e.running && |e.workers| == |s.workers| && forall w :: 0 <= w < |e.workers| ==> !e.workers[w].Exited?
    decreases |run|
  {
    if run != [] {
      RunningPoolKeepsWorkers(Apply(s, run[0]), run[1..]);
    }
  }

  /** The pool never rests with work to do: whenever a pool with at least one worker, kept running,
      has come to rest, everything ever submitted has been started, in order, exactly once, and
      every worker sleeps. */
  lemma RestMeansDrained<T>(s: State<T>, run: seq<Step<T>>)
    requires Fifo(s) && NoLostWakeUp(s) && s.running && |s.workers| > 0
    requires forall w :: 0 <= w < |s.workers| ==> !s.workers[w].Exited?
    requires Legal(s, run) && forall i :: 0 <= i < |run| ==> !run[i].ClearFlag?
    requires AtRest(After(s, run))
    ensures var e := After(s, run);
      e.tasks == [] && Jobs(e.started) == e.submitted && forall w :: 0 <= w < |e.workers| ==> e.workers[w].Asleep?
  {
    RunKeepsTasks(s, run);
    RunningPoolKeepsWorkers(s, run);
    var e := After(s, run);
    assert e.workers[0].Asleep?;
    TotalBound(e.workers, ReadyWeight);
    assert Ready(e) == 0;
    assert Jobs(e.started) + [] == Jobs(e.started);
  }

  lemma StartedKeeps<T>(count: nat)
    ensures var s := Apply(Fresh<T>(count), SetFlag); Fifo(s) && NoLostWakeUp(s)
  {
    var s := Fresh<T>(count);
    assert Jobs(s.started) + s.tasks == [];
  }

  /** A pool made for any number of workers, 0 included, and started: whatever happens then, except that it is
      stopped, whenever it comes to rest every task submitted has been started, in order, exactly once. */
  lemma StartedPoolDrains<T>(count: nat, run: seq<Step<T>>)
    requires Legal(Fresh<T>(count), [SetFlag] + run) && forall i :: 0 <= i < |run| ==> !run[i].ClearFlag?
    requires AtRest(After(Fresh<T>(count), [SetFlag] + run))
    ensures var e := After(Fresh<T>(count), [SetFlag] + run);
      && e.tasks == [] && Jobs(e.started) == e.submitted
      && |e.workers| == (if count == 0 then 4 else count)
      && forall w :: 0 <= w < |e.workers| ==> e.workers[w].Asleep?
  {
    var s: State<T> := Fresh(count);
    assert ([SetFlag] + run)[1..] == run;
    StartedKeeps<T>(count);
    RunningPoolKeepsWorkers(Apply(s, SetFlag), run);
    RestMeansDrained(Apply(s, SetFlag), run);
  }

  // ---------- How many workers ----------

  /** The size the last resizing of a run asked for, or the one there was. */
  function SizeAfter<T>(size: nat, run: seq<Step<T>>): nat
    decreases |run|
  {
    if run == [] then size else SizeAfter(if run[0].Resize? then run[0].n else size, run[1..])
  }

  lemma {:induction false} SizeOfRun<T>(s: State<T>, run: seq<Step<T>>)
    requires Legal(s, run)
    ensures |After(s, run).workers| == SizeAfter(|s.workers|, run)
    decreases |run|
  {
    if run != [] {
      SizeOfRun(Apply(s, run[0]), run[1..]);
    }
  }

  lemma {:induction false} SizeStays<T>(size: nat, run: seq<Step<T>>)
    requires forall i :: 0 <= i < |run| ==> !run[i].Resize?
    ensures SizeAfter(size, run) == size
  {
    if run != [] {
      SizeStays(size, run[1..]);
    }
  }

  /** A pool made for some workers has that many after every run that does not resize it, and four when made for
      none; resizing gives it the size asked for, without threads. */
  lemma PoolKeepsItsSize<T>(count: nat, run: seq<Step<T>>, n: nat)
    requires Legal(Fresh<T>(count), run) && forall i :: 0 <= i < |run| ==> !run[i].Resize?
    ensures var e := After(Fresh<T>(count), run);
      && |e.workers| == (if count == 0 then 4 else count)
      && (Enabled(e, Resize(n)) ==> |Apply(e, Resize(n)).workers| == n && Idle(Apply(e, Resize(n))))
  {
    SizeOfRun(Fresh<T>(count), run);
    SizeStays(|Fresh<T>(count).workers|, run);
  }

  /** Tasks can be handed in and the pool can be stopped at any time, and a sleeping worker may wake up without being
      notified. */
  lemma WhatCanAlwaysHappen<T>(s: State<T>, task: T, w: nat)
    ensures Enabled(s, Push(task)) && Enabled(s, ClearFlag) && Enabled(s, NotifyAll)
    ensures w < |s.workers| && s.workers[w].Asleep? ==> Enabled(s, Wake(w)) && Apply(s, Wake(w)).workers[w].AtLock?
  {
  }

  /** A new thread, and one that has done a job, looks at the flag before it does anything else: it leaves when the
      pool was stopped, and only otherwise goes on to the queue. */
  lemma FlagIsTestedFirst<T>(s: State<T>, step: Step<T>, w: nat)
    requires (step == Spawn(w) || step == Finish(w)) && Enabled(s, step)
    ensures var t := Apply(s, step);
      && Enabled(t, Test(w)) && !Enabled(t, Lock(w)) && !Enabled(t, Finish(w)) && !Enabled(t, Wake(w))
      && if t.running then Apply(t, Test(w)).workers[w].AtLock? else Apply(t, Test(w)).workers[w].Exited?
  {
  }

  // ---------- Starting again ----------

  /** The joins of `stop()`, from worker `w` on. */
  function Joins<T>(w: nat, size: nat): seq<Step<T>>
    requires w <= size
    decreases size - w
  {
    if w == size then [] else [Join(w)] + Joins(w + 1, size)
  }

  lemma {:induction false} JoinsClear<T>(s: State<T>, w: nat)
    requires w <= |s.workers|
    requires forall v :: 0 <= v < w ==> s.workers[v].NoThread?
    requires forall v :: w <= v < |s.workers| ==> s.workers[v].Exited?
    ensures Legal(s, Joins(w, |s.workers|))
    ensures var e := After(s, Joins(w, |s.workers|));
      Idle(e) && e == s.(workers := e.workers) && |e.workers| == |s.workers|
    decreases |s.workers| - w
  {
    if w < |s.workers| {
      var t := Apply(s, Join(w));
      JoinsClear(t, w + 1);
      assert Joins<T>(w, |s.workers|)[1..] == Joins(w + 1, |s.workers|);
    }
  }

  /** Once every worker has left its loop the joins of `stop()` go through one after the other; then the pool can be
      started again, with as many workers and with the tasks it still had. */
  lemma StoppedPoolStartsAgain<T>(s: State<T>)
    requires forall v :: 0 <= v < |s.workers| ==> s.workers[v].Exited?
    ensures Legal(s, Joins(0, |s.workers|))
    ensures var e := After(s, Joins(0, |s.workers|));
      && e.tasks == s.tasks && |e.workers| == |s.workers|
      && Enabled(e, SetFlag) && Apply(e, SetFlag).running
      && forall w: nat :: w < |e.workers| ==> Enabled(Apply(e, SetFlag), Spawn(w))
  {
    JoinsClear(s, 0);
  }

  // ---------- stop() ----------

  /** The steps that can happen while `stop()` is under way: no thread is started, but tasks still arrive. */
  predicate Stopping<T>(step: Step<T>) {
    !step.SetFlag? && !step.Spawn? && !step.Resize?
  }

  predicate StoppingRun<T>(run: seq<Step<T>>) {
    forall i :: 0 <= i < |run| ==> Stopping(run[i])
  }

  /** How many tasks arrive along a run. */
  function Pushes<T>(run: seq<Step<T>>): nat {
    if run == [] then 0 else (if run[0].Push? then 1 else 0) + Pushes(run[1..])
  }

  /** A task that arrives makes up for one worker; nothing else a stopping pool does changes the count. */
  lemma ShortfallStep<T>(s: State<T>, step: Step<T>)
    requires !s.running && Enabled(s, step) && Stopping(step)
    ensures !Apply(s, step).running
    ensures Shortfall(Apply(s, step)) == Shortfall(s) - if step.Push? then 1 else 0
  {
    var s' := Apply(s, step);
    if step.NotifyAll? {
      TotalPointwise(s.workers, s'.workers, CommittedWeight);
    } else if s.workers != s'.workers {
      TotalUpdate(s.workers, step.w, s'.workers[step.w], CommittedWeight);
    }
  }

  lemma {:induction false} ShortfallRun<T>(s: State<T>, run: seq<Step<T>>)
    requires !s.running && Legal(s, run) && StoppingRun(run)
    ensures !After(s, run).running && Shortfall(After(s, run)) == Shortfall(s) - Pushes(run)
    decreases |run|
  {
    if run != [] {
      ShortfallStep(s, run[0]);
      ShortfallRun(Apply(s, run[0]), run[1..]);
    }
  }

  function LockWeight<T>(p: Worker<T>): int { if p.AtLock? then 1 else 0 }

  /** From `notify_all()` on: while a worker sleeps, every queued task is covered by a worker about to look
      at the queue or by a notify still to come. */
  predicate SleepersCovered<T>(s: State<T>) {
    SomeAsleep(s.workers) ==> |s.tasks| <= Total(s.workers, LockWeight) + s.notifies
  }

  lemma SleepersCoveredStep<T>(s: State<T>, step: Step<T>)
    requires !s.running && SleepersCovered(s) && Enabled(s, step) && Stopping(step)
    ensures SleepersCovered(Apply(s, step))
  {
    var s' := Apply(s, step);
    TotalBound(s.workers, LockWeight);
    TotalBound(s'.workers, LockWeight);
    if step.NotifyAll? {
      assert !SomeAsleep(s'.workers);
    } else if step.Lock? && s.tasks == [] {
    } else if s.workers != s'.workers {
      OneWorker(s, step.w, s'.workers[step.w], LockWeight);
    }
  }

  lemma {:induction false} SleepersCoveredRun<T>(s: State<T>, run: seq<Step<T>>)
    requires !s.running && SleepersCovered(s) && Legal(s, run) && StoppingRun(run)
    ensures SleepersCovered(After(s, run))
    decreases |run|
  {
    if run != [] {
      SleepersCoveredStep(s, run[0]);
      ShortfallStep(s, run[0]);
      SleepersCoveredRun(Apply(s, run[0]), run[1..]);
    }
  }

  predicate AllDone<T>(s: State<T>) {
    forall w :: 0 <= w < |s.workers| ==> s.workers[w].Exited? || s.workers[w].NoThread?
  }

  lemma {:induction false} AfterConcat<T>(s: State<T>, a: seq<Step<T>>, b: seq<Step<T>>)
    requires Legal(s, a + b)
    ensures Legal(s, a) && Legal(After(s, a), b) && After(s, a + b) == After(After(s, a), b)
    decreases |a|
  {
    if a == [] {
      assert a + b == b;
    } else {
      assert (a + b)[1..] == a[1..] + b;
      AfterConcat(Apply(s, a[0]), a[1..], b);
    }
  }

  /** A stopped pool at rest: who still sleeps is exactly who never got the task it needed. */
  lemma SleepersAtRest<T>(e: State<T>)
    requires !e.running && AtRest(e) && SleepersCovered(e)
    ensures Sleepers(e) == if Shortfall(e) > 0 then Shortfall(e) else 0
    ensures AllDone(e) <==> Sleepers(e) == 0
  {
    CommittedAtRest(e);
    NobodyAtLock(e.workers);
    TotalBound(e.workers, AsleepWeight);
    if SomeAsleep(e.workers) {
      var w :| 0 <= w < |e.workers| && e.workers[w].Asleep?;
      assert AsleepWeight(e.workers[w]) == 1;
    } else {
      NobodyAsleep(e.workers);
    }
  }

  lemma {:induction false} NobodyAtLock<T>(ws: seq<Worker<T>>)
    requires forall w :: 0 <= w < |ws| ==> !ws[w].AtLock?
    ensures Total(ws, LockWeight) == 0
  {
    if ws != [] {
      NobodyAtLock(ws[1..]);
    }
  }

  lemma {:induction false} NobodyAsleep<T>(ws: seq<Worker<T>>)
    requires !SomeAsleep(ws)
    ensures Total(ws, AsleepWeight) == 0
  {
    if ws != [] {
      assert forall w :: 0 <= w < |ws[1..]| ==> ws[1..][w] == ws[w + 1];
      NobodyAsleep(ws[1..]);
    }
  }

  lemma NotifyAllCovers<T>(s: State<T>, rest: seq<Step<T>>)
    requires !s.running && Legal(s, [NotifyAll] + rest) && StoppingRun([NotifyAll] + rest)
    ensures SleepersCovered(After(s, [NotifyAll] + rest))
  {
    var n := Apply(s, NotifyAll);
    assert ([NotifyAll] + rest)[1..] == rest;
    assert !SomeAsleep(n.workers);
    forall i | 0 <= i < |rest| ensures Stopping(rest[i]) { assert ([NotifyAll] + rest)[i + 1] == rest[i]; }
    SleepersCoveredRun(n, rest);
  }

  lemma StoppingParts<T>(a: seq<Step<T>>, b: seq<Step<T>>)
    requires StoppingRun(a + b)
    ensures StoppingRun(a) && StoppingRun(b)
  {
    forall i | 0 <= i < |a| ensures Stopping(a[i]) { assert (a + b)[i] == a[i]; }
    forall i | 0 <= i < |b| ensures Stopping(b[i]) { assert (a + b)[|a| + i] == b[i]; }
  }

  /** Exactly when `stop()` can return. `s` is the pool at the moment the flag has been cleared; `before` is
      what the threads do until `notify_all()`, `after` what they do from then on, tasks still arriving in
      both. Whatever the interleaving, once nothing is left to happen every worker has exited if and only
      if the tasks queued then and the tasks that arrived since are at least as many as the workers that
      had passed the test of the flag; otherwise the missing number of workers sleeps for ever and
      `join()` never comes back. */
  lemma StopReturnsExactlyWhen<T>(s: State<T>, before: seq<Step<T>>, after: seq<Step<T>>)
    requires !s.running
    requires var run := before + ([NotifyAll] + after);
      Legal(s, run) && StoppingRun(run) && AtRest(After(s, run))
    ensures var run := before + ([NotifyAll] + after);
      var e := After(s, run);
      var missing := Shortfall(s) - Pushes(run);
      && (AllDone(e) <==> Total(s.workers, CommittedWeight) <= |s.tasks| + Pushes(run))
      && Sleepers(e) == if missing > 0 then missing else 0
  {
    var rest := [NotifyAll] + after;
    AfterConcat(s, before, rest);
    StoppingParts(before, rest);
    ShortfallRun(s, before);
    ShortfallRun(s, before + rest);
    NotifyAllCovers(After(s, before), after);
    SleepersAtRest(After(s, before + rest));
  }

  lemma CommittedAtRest<T>(e: State<T>)
    requires AtRest(e)
    ensures Total(e.workers, CommittedWeight) == Sleepers(e)
  {
    CommittedIsAsleep(e.workers);
  }

  lemma {:induction false} CommittedIsAsleep<T>(ws: seq<Worker<T>>)
    requires forall w :: 0 <= w < |ws| ==> !ws[w].AtLock?
    ensures Total(ws, CommittedWeight) == Total(ws, AsleepWeight)
  {
    if ws != [] {
      CommittedIsAsleep(ws[1..]);
    }
  }

  /** The smallest pool whose `stop()` hangs: one worker, asleep on an empty queue. After
      `notify_all()` it finds the queue empty again and goes back to sleep. */
  lemma StopCanHang()
    ensures var idle: State<int> := State(true, [], [Asleep], 0, [], []);
      var run := [ClearFlag, NotifyAll, Lock(0)];
      Legal(idle, run) && AtRest(After(idle, run)) && !AllDone(After(idle, run))
  {
    var s0: State<int> := State(true, [], [Asleep], 0, [], []);
    var s1 := Apply(s0, ClearFlag);
    var s2 := Apply(s1, NotifyAll);
    assert s2.workers == [AtLock];
    var s3 := Apply(s2, Lock(0));
    var r: seq<Step<int>> := [ClearFlag, NotifyAll, Lock(0)];
    assert r[1..] == [NotifyAll, Lock(0)] && r[1..][1..] == [Lock(0)] && r[1..][1..][1..] == [];
    assert Legal(s3, []) && Legal(s2, [Lock(0)]) && Legal(s1, r[1..]);
    assert After(s2, [Lock(0)]) == s3;
    assert After(s1, r[1..]) == s3;
    assert s3.workers[0].Asleep?;
  }

  /** How many tasks worker `w` has taken. */
  function StartsBy<T>(started: seq<(nat, T)>, w: nat): nat {
    if started == [] then 0
    else StartsBy(started[..|started| - 1], w) + if started[|started| - 1].0 == w then 1 else 0
  }

  function MayStart<T>(s: State<T>, w: nat): nat {
    if w < |s.workers| && (s.workers[w].AtLock? || s.workers[w].Asleep?) then 1 else 0
  }

  lemma {:induction false} StartsAfterStop<T>(s: State<T>, run: seq<Step<T>>, w: nat)
    requires !s.running && Legal(s, run) && forall i :: 0 <= i < |run| ==> !run[i].SetFlag?
    ensures StartsBy(After(s, run).started, w) + MayStart(After(s, run), w)
         <= StartsBy(s.started, w) + MayStart(s, w)
    decreases |run|
  {
    if run != [] {
      var s' := Apply(s, run[0]);
      assert s'.started != s.started ==> s'.started[..|s'.started| - 1] == s.started;
      StartsAfterStop(s', run[1..], w);
    }
  }

  /** After `stop()` has cleared the flag, each worker takes at most one further task, and none at
      all unless it had already passed the test of the flag, however many tasks keep arriving. */
  lemma AtMostOneMoreTaskEach<T>(s: State<T>, run: seq<Step<T>>, w: nat)
    requires Enabled(s, ClearFlag)
    requires Legal(Apply(s, ClearFlag), run) && forall i :: 0 <= i < |run| ==> !run[i].SetFlag?
    ensures StartsBy(After(Apply(s, ClearFlag), run).started, w) <= StartsBy(s.started, w) + MayStart(s, w)
  {
    StartsAfterStop(Apply(s, ClearFlag), run, w);
  }

  // ---------- The pool itself ----------

  /** The fields of the source, updated in place one critical section at a time. */
  class Pool<T(==)> {
    var running: bool
    var taskQueue: seq<T>
    var workThreads: seq<Worker<T>>
    ghost var notifies: nat
    ghost var submitted: seq<T>
    ghost var started: seq<(nat, T)>

    ghost function View(): State<T>
      reads this
    {
      State(running, taskQueue, workThreads, notifies, submitted, started)
    }

    constructor (count: nat)
      ensures View() == Fresh(count)
    {
      running := false;
      taskQueue := [];
      workThreads := seq(if count == 0 then 4 else count, i => NoThread);
      notifies, submitted, started := 0, [], [];
    }

    /** `start()`: set the flag, then give every slot a thread. */
    method Start()
      requires Enabled(View(), SetFlag)
      modifies this
      ensures running && |workThreads| == old(|workThreads|)
      ensures forall w :: 0 <= w < |workThreads| ==> workThreads[w].AtTest?
      ensures View() == old(View()).(running := true, workers := workThreads)
    {
      running := true;
      var w := 0;
      while w < |workThreads|
        invariant 0 <= w <= |workThreads| == old(|workThreads|)
        invariant forall i :: 0 <= i < w ==> workThreads[i].AtTest?
        invariant forall i :: w <= i < |workThreads| ==> workThreads[i].NoThread?
        invariant View() == old(View()).(running := true, workers := workThreads)
      {
        assert Enabled(View(), Spawn(w));
        workThreads := workThreads[w := AtTest];
        w := w + 1;
      }
    }

    /** The part of `stop()` before the joins. */
    method SignalStop()
      modifies this
      ensures View() == Apply(Apply(old(View()), ClearFlag), NotifyAll)
      ensures !running && !SomeAsleep(workThreads)
    {
      running := false;
      workThreads := WokenAll(workThreads);
    }

    /** `queueTask()` up to the end of the lock's scope. */
    method PushTask(task: T)
      modifies this
      ensures View() == Apply(old(View()), Push(task))
    {
      taskQueue := taskQueue + [task];
      notifies, submitted := notifies + 1, submitted + [task];
    }

    /** `queueTask()`'s `notify_one()`; the system picks the sleeper to wake. */
    method NotifyOneSleeper(w: nat)
      requires Enabled(View(), NotifyOne(w))
      modifies this
      ensures View() == Apply(old(View()), NotifyOne(w))
    {
      if w < |workThreads| && workThreads[w].Asleep? {
        workThreads := workThreads[w := AtLock];
      }
      notifies := notifies - 1;
    }

    /** The `while (m_running)` test of worker `w`. */
    method TestRunning(w: nat)
      requires Enabled(View(), Test(w))
      modifies this
      ensures View() == Apply(old(View()), Test(w))
    {
      workThreads := workThreads[w := if running then AtLock else Exited];
    }

    /** Worker `w` under the mutex: test the predicate, then sleep or take the front task. */
    method TakeOrSleep(w: nat) returns (job: seq<T>)
      requires Enabled(View(), Lock(w))
      modifies this
      ensures View() == Apply(old(View()), Lock(w))
      ensures old(taskQueue) == job + taskQueue && (job == [] <==> old(taskQueue) == [])
    {
      if taskQueue == [] {
        workThreads := workThreads[w := Asleep];
        job := [];
      } else {
        job := [taskQueue[0]];
        workThreads := workThreads[w := Busy(taskQueue[0])];
        started := started + [(w, taskQueue[0])];
        taskQueue := taskQueue[1..];
      }
    }

    /** `job()` has returned. */
    method FinishJob(w: nat)
      requires Enabled(View(), Finish(w))
      modifies this
      ensures View() == Apply(old(View()), Finish(w))
    {
      workThreads := workThreads[w := AtTest];
    }
  }
}
