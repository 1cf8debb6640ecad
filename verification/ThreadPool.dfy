/**
 The worker pool (src/threadPool.hh). Each critical section under `queue_mutex` is one atomic
 step; waiting on the condition variable gives the lock up and falls asleep in one step, and a
 sleeper may wake at any time. notify_one comes after the lock is released, so it is a step of
 its own.
 */
module Pools {

  /** Where a worker stands; a running task is known by its number in the order of dequeueing. */
  datatype Stage = Ready | Asleep | Running(task: nat) | Exited

  /** The destructor: not begun; `stop` set but nobody told; joining, with `joined` threads joined. */
  datatype Phase = Open | Stopping | Joining(joined: nat)

  /** The pool, with the history of tasks enqueued, taken and finished. */
  datatype Pool<T> = Pool(
    workers: seq<Stage>,
    queue: seq<T>,
    notifies: nat,
    phase: Phase,
    enqueued: seq<T>,
    taken: seq<T>,
    finished: set<nat>)

  datatype Action<T> =
    | Enqueue(x: T)
    | NotifyOne(w: nat)
    | Turn(w: nat)
    | Return(w: nat)
    | Spurious(w: nat)
    | SetStop
    | NotifyAll
    | Join

  function Start<T>(threads: nat): Pool<T> {
    Pool(seq(threads, _ => Ready), [], 0, Open, [], [], {})
  }

  predicate Is(s: Pool, w: nat, stage: Stage) {
    w < |s.workers| && s.workers[w] == stage
  }

  predicate NobodyAsleep(s: Pool) {
    forall i {:trigger s.workers[i]} :: 0 <= i < |s.workers| ==> !s.workers[i].Asleep?
  }

  /** Nobody enqueues once the destructor runs; tasks return; everything else is the code's. */
  predicate Enabled(s: Pool, a: Action) {
    match a
    case Enqueue(_) => s.phase.Open?
    case NotifyOne(w) => s.notifies > 0 && (Is(s, w, Asleep) || NobodyAsleep(s))
    case Turn(w) => Is(s, w, Ready)
    case Return(w) => w < |s.workers| && s.workers[w].Running?
    case Spurious(w) => Is(s, w, Asleep)
    case SetStop => s.phase.Open?
    case NotifyAll => s.phase.Stopping?
    case Join => s.phase.Joining? && Is(s, s.phase.joined, Exited)
  }

  function WakeAll(workers: seq<Stage>): (r: seq<Stage>)
    ensures |r| == |workers|
  {
    seq(|workers|, i requires 0 <= i < |workers| => if workers[i].Asleep? then Ready else workers[i])
  }

  function SetWorker<T>(s: Pool<T>, w: nat, stage: Stage): Pool<T>
    requires w < |s.workers|
  {
    s.(workers := s.workers[w := stage])
  }

  function Next<T>(s: Pool<T>, a: Action<T>): Pool<T>
    requires Enabled(s, a)
  {
    match a
    case Enqueue(x) => s.(queue := s.queue + [x], enqueued := s.enqueued + [x], notifies := s.notifies + 1)
    case NotifyOne(w) =>
      if NobodyAsleep(s) then s.(notifies := s.notifies - 1)
      else SetWorker(s, w, Ready).(notifies := s.notifies - 1)
    case Turn(w) =>
      if s.phase.Open? && |s.queue| == 0 then SetWorker(s, w, Asleep)
      else if |s.queue| == 0 then SetWorker(s, w, Exited)
      else SetWorker(s, w, Running(|s.taken|)).(taken := s.taken + [s.queue[0]], queue := s.queue[1..])
    case Return(w) => SetWorker(s, w, Ready).(finished := s.finished + {s.workers[w].task})
    case Spurious(w) => SetWorker(s, w, Ready)
    case SetStop => s.(phase := Stopping)
    case NotifyAll => s.(phase := Joining(0), workers := WakeAll(s.workers))
    case Join => s.(phase := Joining(s.phase.joined + 1))
  }

  // ----- invariant -----

  /** Awake workers that hold no task. */
  function ReadyCount(workers: seq<Stage>): nat {
    if |workers| == 0 then 0
    else ReadyCount(workers[..|workers| - 1]) + if workers[|workers| - 1].Ready? then 1 else 0
  }

  /** With a worker asleep, every queued task has an awake worker or a notify on the way. */
  ghost predicate NoLostWakeup(s: Pool) {
    NobodyAsleep(s) || |s.queue| <= ReadyCount(s.workers) + s.notifies
  }

  /** Tasks leave in the order they came, and each taken one is finished or held by one worker. */
  ghost predicate Accounted(s: Pool) {
    && s.enqueued == s.taken + s.queue
    && (forall n {:trigger n in s.finished} :: n in s.finished ==> n < |s.taken|)
    && (forall i {:trigger s.workers[i]} :: 0 <= i < |s.workers| && s.workers[i].Running? ==>
          s.workers[i].task < |s.taken| && s.workers[i].task !in s.finished)
    && (forall i, j {:trigger s.workers[i], s.workers[j]} ::
          0 <= i < j < |s.workers| && s.workers[i].Running? && s.workers[j].Running? ==>
                s.workers[i].task != s.workers[j].task)
    && (forall n: nat {:trigger Held(s, n)} :: n < |s.taken| ==> n in s.finished || Held(s, n))
  }

  ghost predicate Held(s: Pool, n: nat) {
    exists i {:trigger s.workers[i]} :: 0 <= i < |s.workers| && s.workers[i] == Running(n)
  }

  /** A worker leaves only when stopped and out of work; nobody sleeps through a shutdown. */
  ghost predicate Orderly(s: Pool) {
    && (forall i {:trigger s.workers[i]} :: 0 <= i < |s.workers| && s.workers[i].Exited? ==>
          !s.phase.Open? && |s.queue| == 0)
    && (s.phase.Joining? ==>
          NobodyAsleep(s) && s.phase.joined <= |s.workers| && forall i :: 0 <= i < s.phase.joined ==>
                s.workers[i].Exited?)
  }

  ghost predicate Inv(s: Pool) {
    NoLostWakeup(s) && Accounted(s) && Orderly(s)
  }

  lemma {:induction false} ReadyCountUpdate(workers: seq<Stage>, i: nat, stage: Stage)
    requires i < |workers|
    ensures ReadyCount(workers[i := stage]) + (if workers[i].Ready? then 1 else 0)
            == ReadyCount(workers) + (if stage.Ready? then 1 else 0)
  {
    var n := |workers| - 1;
    if i < n {
      ReadyCountUpdate(workers[..n], i, stage);
      assert workers[i := stage][..n] == workers[..n][i := stage];
    } else {
      assert workers[i := stage][..n] == workers[..n];
    }
  }

  lemma {:induction false} SomeReady(workers: seq<Stage>) returns (i: nat)
    requires ReadyCount(workers) > 0
    ensures i < |workers| && workers[i].Ready?
  {
    var n := |workers| - 1;
    if workers[n].Ready? {
      i := n;
    } else {
      i := SomeReady(workers[..n]);
    }
  }

  lemma StepKeepsWakeups<T>(s: Pool<T>, a: Action<T>)
    requires Inv(s) && Enabled(s, a)
    ensures NoLostWakeup(Next(s, a))
  {
    match a
    case NotifyOne(w) => if !NobodyAsleep(s) { ReadyCountUpdate(s.workers, w, Ready); }
    case Turn(w) =>
      ReadyCountUpdate(s.workers, w, Next(s, a).workers[w]);
      if !NobodyAsleep(Next(s, a)) && |s.queue| > 0 {
        assert !NobodyAsleep(s) by {
          var i :| 0 <= i < |s.workers| && Next(s, a).workers[i].Asleep?;
          assert s.workers[i].Asleep?;
        }
      }
    case Return(w) =>
      ReadyCountUpdate(s.workers, w, Ready);
      assert NobodyAsleep(s) ==> NobodyAsleep(Next(s, a));
    case Spurious(w) => ReadyCountUpdate(s.workers, w, Ready);
    case _ =>
  }

  lemma StepKeepsAccounts<T>(s: Pool<T>, a: Action<T>)
    requires Inv(s) && Enabled(s, a)
    ensures Accounted(Next(s, a))
  {
    var s' := Next(s, a);
    assert s'.enqueued == s'.taken + s'.queue;
    forall n: nat | n < |s'.taken| ensures n in s'.finished || Held(s', n) {
      if a.Turn? && n == |s.taken| {
        assert s'.workers[a.w] == Running(n);
      } else if n !in s.finished {
        assert Held(s, n);
        var i :| 0 <= i < |s.workers| && s.workers[i] == Running(n);
        assert s'.workers[i] == Running(n) || n in s'.finished;
      }
    }
  }

  lemma StepKeepsOrder<T>(s: Pool<T>, a: Action<T>)
    requires Inv(s) && Enabled(s, a)
    ensures Orderly(Next(s, a))
  {
  }

  /** Each action taken in turn was possible when it was taken. */
  ghost predicate Legal<T>(s: Pool<T>, run: seq<Action<T>>)
    decreases |run|
  {
    |run| == 0 || (Enabled(s, run[0]) && Legal(Next(s, run[0]), run[1..]))
  }

  ghost function After<T>(s: Pool<T>, run: seq<Action<T>>): Pool<T>
    requires Legal(s, run)
    decreases |run|
  {
    if |run| == 0 then s else After(Next(s, run[0]), run[1..])
  }

  lemma {:induction false} RunKeepsInv<T>(s: Pool<T>, run: seq<Action<T>>)
    requires Inv(s) && Legal(s, run)
    ensures Inv(After(s, run)) && |After(s, run).workers| == |s.workers|
    decreases |run|
  {
    if |run| > 0 {
      KeepsInv(s, run[0]);
      RunKeepsInv(Next(s, run[0]), run[1..]);
    }
  }

  /** Every reachable state: no lost wake-up, every task accounted for, an orderly shutdown. */
  lemma ReachableInv<T>(threads: nat, run: seq<Action<T>>)
    requires Legal(Start<T>(threads), run)
    ensures Inv(After(Start<T>(threads), run)) && |After(Start<T>(threads), run).workers| == threads
  {
    RunKeepsInv(Start<T>(threads), run);
  }

  /** The code's own steps, as opposed to a client's or an accident of the condition variable. */
  predicate Own(a: Action) {
    !a.Enqueue? && !a.SetStop? && !a.Spurious?
  }

  /** Queued work is never stuck: some worker or notify can move without any spurious wake-up. */
  lemma QueuedWorkMoves<T>(s: Pool<T>) returns (a: Action<T>)
    requires Inv(s) && |s.workers| > 0 && |s.queue| > 0
    ensures Enabled(s, a) && (a.Turn? || a.Return? || a.NotifyOne?)
  {
    if NobodyAsleep(s) {
      assert !s.workers[0].Asleep? && !s.workers[0].Exited?;
      a := if s.workers[0].Ready? then Turn(0) else Return(0);
    } else if s.notifies > 0 {
      var w :| 0 <= w < |s.workers| && s.workers[w].Asleep?;
      a := NotifyOne(w);
    } else {
      var w := SomeReady(s.workers);
      a := Turn(w);
    }
  }

  // ----- shutdown -----

  function Weight(workers: seq<Stage>): nat {
    if |workers| == 0 then 0
    else Weight(workers[..|workers| - 1]) + StageWeight(workers[|workers| - 1])
  }

  function StageWeight(stage: Stage): nat {
    match stage case Ready => 1 case Asleep => 2 case Running(_) => 2 case Exited => 0
  }

  /** An upper bound on the steps still to come once `stop` is set. */
  function Remaining(s: Pool): int {
    3 * |s.queue| + Weight(s.workers) + s.notifies
    + match s.phase case Joining(joined) => |s.workers| - joined case _ => |s.workers| + 1
  }

  lemma {:induction false} WeightUpdate(workers: seq<Stage>, i: nat, stage: Stage)
    requires i < |workers|
    ensures Weight(workers[i := stage]) + StageWeight(workers[i]) == Weight(workers) + StageWeight(stage)
  {
    var n := |workers| - 1;
    if i < n {
      WeightUpdate(workers[..n], i, stage);
      assert workers[i := stage][..n] == workers[..n][i := stage];
    } else {
      assert workers[i := stage][..n] == workers[..n];
    }
  }

  lemma {:induction false} WakeAllWeight(workers: seq<Stage>)
    ensures Weight(WakeAll(workers)) <= Weight(workers)
  {
    if |workers| > 0 {
      var n := |workers| - 1;
      WakeAllWeight(workers[..n]);
      assert WakeAll(workers)[..n] == WakeAll(workers[..n]);
    }
  }

  /** After `stop` every step counts, nobody goes to sleep, and only notify_all's delay leaves anybody asleep. */
  lemma StoppedStep<T>(s: Pool<T>, a: Action<T>)
    requires Inv(s) && !s.phase.Open? && Enabled(s, a)
    ensures !Next(s, a).phase.Open? && Remaining(Next(s, a)) < Remaining(s)
    ensures forall i :: 0 <= i < |s.workers| && Next(s, a).workers[i].Asleep? ==>
          s.workers[i].Asleep? && s.phase.Stopping?
  {
    match a
    case NotifyOne(w) => if !NobodyAsleep(s) { WeightUpdate(s.workers, w, Ready); }
    case Turn(w) => WeightUpdate(s.workers, w, Next(s, a).workers[w]);
    case Return(w) => WeightUpdate(s.workers, w, Ready);
    case Spurious(w) => WeightUpdate(s.workers, w, Ready);
    case NotifyAll => WakeAllWeight(s.workers);
    case _ =>
  }

  /** Shutdown terminates: no run from a stopped state is longer than what remains. */
  lemma {:induction false} ShutdownBounded<T>(s: Pool<T>, run: seq<Action<T>>)
    requires Inv(s) && !s.phase.Open? && Legal(s, run)
    ensures |run| <= Remaining(s)
    decreases |run|
  {
    if |run| > 0 {
      StoppedStep(s, run[0]);
      RunKeepsInv(s, [run[0]]);
      assert After(s, [run[0]]) == Next(s, run[0]);
      ShutdownBounded(Next(s, run[0]), run[1..]);
    }
  }

  /** The destructor has joined every thread. */
  predicate Complete(s: Pool) {
    s.phase == Joining(|s.workers|)
  }

  /** Until the joins are complete the code itself can go on, so every maximal run completes. */
  lemma ShutdownProgress<T>(s: Pool<T>) returns (a: Action<T>)
    requires Inv(s) && !s.phase.Open? && !Complete(s)
    ensures Enabled(s, a) && Own(a)
  {
    if s.phase.Stopping? {
      a := NotifyAll;
    } else {
      var w := s.phase.joined;
      assert !s.workers[w].Asleep?;
      a := match s.workers[w] case Exited => Join case Ready => Turn(w) case Running(_) => Return(w);
    }
  }

  /** Every task was taken, in order, and has finished. */
  ghost predicate AllRun(s: Pool) {
    s.taken == s.enqueued && forall n: nat {:trigger n in s.finished} :: n in s.finished <==> n < |s.enqueued|
  }

  /**
   Once the joins complete, every enqueued task has been taken in order and has finished, unless
   the pool had no thread.
   */
  lemma AllTasksRun<T>(threads: nat, run: seq<Action<T>>)
    requires Legal(Start<T>(threads), run) && Complete(After(Start<T>(threads), run))
    ensures var s := After(Start<T>(threads), run);
            AllRun(s) <==> threads > 0 || |s.enqueued| == 0
  {
    ReachableInv(threads, run);
    var s := After(Start<T>(threads), run);
    if threads > 0 {
      assert s.workers[0].Exited?;
      assert s.taken == s.enqueued;
      forall n: nat | n < |s.taken| ensures n in s.finished {
        assert n in s.finished || Held(s, n);
        assert forall i :: 0 <= i < |s.workers| ==> s.workers[i].Exited?;
      }
    } else {
      NoThreadTakes(threads, run);
    }
  }

  lemma NoThreadTakes<T>(threads: nat, run: seq<Action<T>>)
    requires threads == 0 && Legal(Start<T>(threads), run)
    ensures After(Start<T>(threads), run).taken == []
  {
    NothingTaken(Start<T>(threads), run);
  }

  lemma {:induction false} NothingTaken<T>(s: Pool<T>, run: seq<Action<T>>)
    requires |s.workers| == 0 && Legal(s, run)
    ensures After(s, run).taken == s.taken
    decreases |run|
  {
    if |run| > 0 {
      NothingTaken(Next(s, run[0]), run[1..]);
    }
  }

  // ----- the class -----

  /** ThreadPool, one method for each atomic step of its threads and of its clients. */
  class ThreadPool<T> {
    var tasks: seq<T>
    var stop: bool
    var threads: seq<Stage>
    ghost var notifies: nat
    ghost var phase: Phase
    ghost var enqueued: seq<T>
    var taken: seq<T>  // a history: its length numbers the next task
    ghost var finished: set<nat>

    ghost function State(): Pool<T>
      reads this
    {
      Pool(threads, tasks, notifies, phase, enqueued, taken, finished)
    }

    ghost predicate Valid()
      reads this
    {
      Inv(State()) && (stop <==> !phase.Open?)
    }

    constructor (threadCount: nat)
      ensures Valid() && State() == Start<T>(threadCount)
      ensures |threads| == threadCount && (forall i :: 0 <= i < threadCount ==> threads[i] == Ready)
      ensures tasks == [] && !stop
    {
      tasks, stop, threads := [], false, seq(threadCount, _ => Ready);
      notifies, phase, enqueued, taken, finished := 0, Open, [], [], {};
    }

    /** enqueue, up to the release of the lock; the notify is still to come. */
    method Enqueue(x: T)
      requires Valid() && phase.Open?
      modifies this
      ensures Valid() && State() == Next(old(State()), Action.Enqueue(x))
    {
      KeepsInv(State(), Action.Enqueue(x));
      tasks, enqueued, notifies := tasks + [x], enqueued + [x], notifies + 1;
    }

    /** condition.notify_one() of some earlier enqueue; `w` is the sleeper it reaches, if there is one. */
    method NotifyOne(w: nat)
      requires Valid() && Enabled(State(), Action.NotifyOne(w))
      modifies this
      ensures Valid() && State() == Next(old(State()), Action.NotifyOne(w))
    {
      KeepsInv(State(), Action.NotifyOne(w));
      if w < |threads| && threads[w].Asleep? {
        threads := threads[w := Ready];
      }
      notifies := notifies - 1;
    }

    /** A worker holding the lock: wait's predicate, then leave, sleep, or take the front task. */
    method Turn(w: nat) returns (task: seq<T>)
      requires Valid() && Enabled(State(), Action<T>.Turn(w))
      modifies this
      ensures Valid() && State() == Next(old(State()), Action.Turn(w))
      ensures task == if |old(tasks)| > 0 then [old(tasks)[0]] else []
    {
      KeepsInv(State(), Action.Turn(w));
      task := [];
      if !(stop || |tasks| > 0) {
        threads := threads[w := Asleep];
      } else if stop && |tasks| == 0 {
        threads := threads[w := Exited];
      } else {
        task := [tasks[0]];
        threads := threads[w := Running(|taken|)];
        taken := taken + task;
        tasks := tasks[1..];
      }
    }

    /** The task returns and the worker goes for the lock again. */
    method Return(w: nat)
      requires Valid() && Enabled(State(), Action<T>.Return(w))
      modifies this
      ensures Valid() && State() == Next(old(State()), Action.Return(w))
    {
      KeepsInv(State(), Action.Return(w));
      finished := finished + {threads[w].task};
      threads := threads[w := Ready];
    }

    /** The condition variable lets a sleeper go for no reason. */
    method SpuriousWake(w: nat)
      requires Valid() && Enabled(State(), Action<T>.Spurious(w))
      modifies this
      ensures Valid() && State() == Next(old(State()), Action.Spurious(w))
    {
      KeepsInv(State(), Action.Spurious(w));
      threads := threads[w := Ready];
    }

    /** The destructor under the lock. */
    method SetStop()
      requires Valid() && phase.Open?
      modifies this
      ensures Valid() && State() == Next(old(State()), Action.SetStop)
    {
      KeepsInv(State(), Action.SetStop);
      stop, phase := true, Stopping;
    }

    /** condition.notify_all() of the destructor. */
    method NotifyAll()
      requires Valid() && phase.Stopping?
      modifies this
      ensures Valid() && State() == Next(old(State()), Action.NotifyAll)
    {
      KeepsInv(State(), Action.NotifyAll);
      threads, phase := WakeAll(threads), Joining(0);
    }

    /** One thread.join() of the destructor's loop. */
    method JoinNext()
      requires Valid() && Enabled(State(), Action<T>.Join)
      modifies this
      ensures Valid() && State() == Next(old(State()), Action.Join)
    {
      KeepsInv(State(), Action.Join);
      phase := Joining(phase.joined + 1);
    }
  }

  lemma KeepsInv<T>(s: Pool<T>, a: Action<T>)
    requires Inv(s) && Enabled(s, a)
    ensures Inv(Next(s, a))
  {
    StepKeepsWakeups(s, a);
    StepKeepsAccounts(s, a);
    StepKeepsOrder(s, a);
  }
}
