/** The worker pool's use of its two condition variables, for any number of workers and
    producers.

    One step is one critical section, from acquiring the lock to releasing it or to
    waiting. A wait may end without a signal. Every producer submits one task and the
    task carries the producer's number. */
module ThreadPool {
  import opened Basics
  import opened ListContents

  /** Idle is outside the lock; Asleep is in `pthread_cond_wait`; Awake has left the wait
      and is about to look at the queue again. */
  datatype Worker = Idle | Asleep | Awake | Running(index: nat, task: nat) | Exited

  datatype Producer = Arriving | Blocked | Roused | Finished(accepted: bool)

  datatype Pool = Pool(
    capacity: nat,
    queue: seq<nat>,
    shutdown: bool,
    workers: map<nat, Worker>,
    producers: map<nat, Producer>,
    accepted: seq<nat>,      // every task that was ever put into the queue, in order
    taken: nat,              // how many tasks were ever taken out of it
    done: seq<nat>)          // the positions in `accepted` that have been run

  datatype Step =
    | WorkerLooks(worker: nat, rouse: Option<nat>)
    | WorkerWakes(worker: nat)
    | WorkerReturns(worker: nat)
    | ProducerComes(producer: nat)
    | ProducerLooks(producer: nat, wake: Option<nat>)
    | ProducerWakes(producer: nat)
    | Destroy

  predicate Init(p: Pool) {
    && p.capacity > 0 && p.queue == [] && !p.shutdown && p.producers == map[]
    && (forall w :: w in p.workers ==> p.workers[w] == Idle)
    && p.accepted == [] && p.taken == 0 && p.done == []
  }

  predicate Sleeps(p: Pool, worker: nat) {
    worker in p.workers && p.workers[worker] == Asleep
  }

  predicate Waits(p: Pool, producer: nat) {
    producer in p.producers && p.producers[producer] == Blocked
  }

  /** A signal wakes one of the waiting threads, when there is one. */
  ghost predicate Signals(p: Pool, wake: Option<nat>) {
    if wake.Some? then Sleeps(p, wake.value) else forall w :: !Sleeps(p, w)
  }

  ghost predicate Rouses(p: Pool, rouse: Option<nat>) {
    if rouse.Some? then Waits(p, rouse.value) else forall q :: !Waits(p, q)
  }

  ghost predicate Enabled(p: Pool, step: Step) {
    match step
    case WorkerLooks(w, rouse) =>
      && w in p.workers && (p.workers[w] == Idle || p.workers[w] == Awake)
      && (p.queue != [] ==> Rouses(p, rouse))
    case WorkerWakes(w) => Sleeps(p, w)
    case WorkerReturns(w) => w in p.workers && p.workers[w].Running?
    case ProducerComes(q) => q !in p.producers
    case ProducerLooks(q, wake) =>
      && q in p.producers && (p.producers[q] == Arriving || p.producers[q] == Roused)
      && (|p.queue| != p.capacity && !p.shutdown ==> Signals(p, wake))
    case ProducerWakes(q) => Waits(p, q)
    case Destroy => true
  }

  function WithWorker(p: Pool, worker: nat, state: Worker): Pool {
    p.(workers := p.workers[worker := state])
  }

  function WithProducer(p: Pool, producer: nat, state: Producer): Pool {
    p.(producers := p.producers[producer := state])
  }

  /** The loop body of `thread_worker` up to the unlock. */
  function Looking(p: Pool, w: nat, rouse: Option<nat>): Pool {
    if p.queue == [] && !p.shutdown then WithWorker(p, w, Asleep)
    else if p.queue == [] then WithWorker(p, w, Exited)
    else
      var p' := WithWorker(p, w, Running(p.taken, p.queue[0])).(queue := p.queue[1..], taken := p.taken + 1);
      if rouse.Some? then WithProducer(p', rouse.value, Roused) else p'
  }

  /** `thread_pool_add` up to the unlock or the wait. */
  function Adding(p: Pool, q: nat, wake: Option<nat>): Pool {
    if |p.queue| == p.capacity && !p.shutdown then WithProducer(p, q, Blocked)
    else if p.shutdown then WithProducer(p, q, Finished(false))
    else
      var p' := WithProducer(p, q, Finished(true)).(queue := p.queue + [q], accepted := p.accepted + [q]);
      if wake.Some? then WithWorker(p', wake.value, Awake) else p'
  }

  /** `thread_pool_destroy` up to the joins: both broadcasts. */
  function Destroying(p: Pool): Pool {
    p.(shutdown := true,
       workers := map w | w in p.workers :: if p.workers[w] == Asleep then Awake else p.workers[w],
       producers := map q | q in p.producers :: if p.producers[q] == Blocked then Roused else p.producers[q])
  }

  function After(p: Pool, step: Step): Pool {
    match step
    case WorkerLooks(w, rouse) => Looking(p, w, rouse)
    case WorkerWakes(w) => WithWorker(p, w, Awake)
    case WorkerReturns(w) =>
      if w in p.workers && p.workers[w].Running?
      then WithWorker(p, w, Idle).(done := p.done + [p.workers[w].index]) else p
    case ProducerComes(q) => WithProducer(p, q, Arriving)
    case ProducerLooks(q, wake) => Adding(p, q, wake)
    case ProducerWakes(q) => WithProducer(p, q, Roused)
    case Destroy => Destroying(p)
  }

  ghost function AwakeWorkers(p: Pool): set<nat> {
    set w | w in p.workers && p.workers[w] == Awake
  }

  ghost function RousedProducers(p: Pool): set<nat> {
    set q | q in p.producers && p.producers[q] == Roused
  }

  /** No wakeup is lost: while a worker sleeps, at least as many workers have been woken as
      there are tasks; while a producer waits, at least as many producers have been roused
      as there are free slots. After a shutdown nobody sleeps or waits. */
  ghost predicate NoLostWakeup(p: Pool) {
    && (forall w :: Sleeps(p, w) ==> !p.shutdown && |p.queue| <= |AwakeWorkers(p)|)
    && (forall q :: Waits(p, q) ==> !p.shutdown && p.capacity - |p.queue| <= |RousedProducers(p)|)
  }

  predicate Runs(p: Pool, worker: nat) {
    worker in p.workers && p.workers[worker].Running?
  }

  ghost predicate BeingRun(p: Pool, index: nat) {
    exists w :: Runs(p, w) && p.workers[w].index == index
  }

  /** Tasks leave in the order they came: what is queued is what was accepted and not taken. */
  ghost predicate InOrder(p: Pool) {
    && |p.queue| <= p.capacity && p.taken <= |p.accepted| && p.queue == p.accepted[p.taken..]
    && forall w :: Runs(p, w) ==> p.workers[w].index < p.taken && p.workers[w].task == p.accepted[p.workers[w].index]
  }

  /** Each task that was taken is being run by one worker, or has been run, once. */
  ghost predicate RunOnce(p: Pool) {
    && NoRepeats(p.done) && (forall i :: i in p.done ==> i < p.taken)
    && (forall i :: 0 <= i < p.taken ==> i in p.done || BeingRun(p, i))
    && (forall w :: Runs(p, w) ==> p.workers[w].index !in p.done)
    && (forall w, v :: Runs(p, w) && Runs(p, v) && p.workers[w].index == p.workers[v].index ==> w == v)
  }

  ghost predicate Drained(p: Pool) {
    forall w :: w in p.workers && p.workers[w].Exited? ==> p.shutdown && p.queue == []
  }

  ghost predicate Inv(p: Pool) {
    p.capacity > 0 && NoLostWakeup(p) && InOrder(p) && RunOnce(p) && Drained(p)
  }

  lemma InitOk(p: Pool)
    requires Init(p)
    ensures Inv(p)
  {
  }

  /** What one step does to who is awake, given who changes. */
  lemma AwakeAfter(p: Pool, w: nat, state: Worker)
    ensures state == Awake ==> AwakeWorkers(WithWorker(p, w, state)) == AwakeWorkers(p) + {w}
    ensures state != Awake ==> AwakeWorkers(WithWorker(p, w, state)) == AwakeWorkers(p) - {w}
  {
  }

  lemma RousedAfter(p: Pool, q: nat, state: Producer)
    ensures state == Roused ==> RousedProducers(WithProducer(p, q, state)) == RousedProducers(p) + {q}
    ensures state != Roused ==> RousedProducers(WithProducer(p, q, state)) == RousedProducers(p) - {q}
  {
  }

  lemma LookingLosesNoWakeup(p: Pool, w: nat, rouse: Option<nat>)
    requires Inv(p) && Enabled(p, WorkerLooks(w, rouse))
    ensures NoLostWakeup(Looking(p, w, rouse))
  {
    var p' := Looking(p, w, rouse);
    AwakeAfter(p, w, p'.workers[w]);
    assert AwakeWorkers(p') == AwakeWorkers(p) - {w};
    forall v | Sleeps(p', v) ensures !p'.shutdown && |p'.queue| <= |AwakeWorkers(p')| {
      assert v != w ==> Sleeps(p, v);
    }
    if p.queue != [] && rouse.Some? {
      RousedAfter(p, rouse.value, Roused);
      assert RousedProducers(p') == RousedProducers(p) + {rouse.value};
    } else {
      assert RousedProducers(p') == RousedProducers(p);
    }
    forall q | Waits(p', q) ensures !p'.shutdown && p'.capacity - |p'.queue| <= |RousedProducers(p')| {
      assert Waits(p, q);
    }
  }

  lemma AddingLosesNoWakeup(p: Pool, q: nat, wake: Option<nat>)
    requires Inv(p) && Enabled(p, ProducerLooks(q, wake))
    ensures NoLostWakeup(Adding(p, q, wake))
  {
    var p' := Adding(p, q, wake);
    RousedAfter(p, q, p'.producers[q]);
    assert RousedProducers(p') == RousedProducers(p) - {q};
    forall r | Waits(p', r) ensures !p'.shutdown && p'.capacity - |p'.queue| <= |RousedProducers(p')| {
      assert r != q ==> Waits(p, r);
    }
    if |p.queue| != p.capacity && !p.shutdown && wake.Some? {
      AwakeAfter(p, wake.value, Awake);
      assert AwakeWorkers(p') == AwakeWorkers(p) + {wake.value};
    } else {
      assert AwakeWorkers(p') == AwakeWorkers(p);
    }
    forall w | Sleeps(p', w) ensures !p'.shutdown && |p'.queue| <= |AwakeWorkers(p')| {
      assert Sleeps(p, w);
    }
  }

  lemma OthersLoseNoWakeup(p: Pool, step: Step)
    requires Inv(p) && Enabled(p, step) && !step.WorkerLooks? && !step.ProducerLooks?
    ensures NoLostWakeup(After(p, step))
  {
    var p' := After(p, step);
    if !step.Destroy? {
      assert AwakeWorkers(p) <= AwakeWorkers(p') && RousedProducers(p) <= RousedProducers(p');
      Larger(AwakeWorkers(p), AwakeWorkers(p'));
      Larger(RousedProducers(p), RousedProducers(p'));
    }
    forall w | Sleeps(p', w) ensures !p'.shutdown && |p'.queue| <= |AwakeWorkers(p')| {
      assert Sleeps(p, w);
    }
    forall q | Waits(p', q) ensures !p'.shutdown && p'.capacity - |p'.queue| <= |RousedProducers(p')| {
      assert Waits(p, q);
    }
  }

  lemma Larger(a: set<nat>, b: set<nat>)
    requires a <= b
    ensures |a| <= |b|
  {
    assert b == a + (b - a);
  }

  lemma LookingKeepsOrder(p: Pool, w: nat, rouse: Option<nat>)
    requires Inv(p) && Enabled(p, WorkerLooks(w, rouse))
    ensures InOrder(Looking(p, w, rouse)) && Drained(Looking(p, w, rouse))
  {
    var p' := Looking(p, w, rouse);
    if p.queue != [] {
      assert p'.queue == p.accepted[p.taken..][1..] == p'.accepted[p'.taken..];
    }
    assert forall v :: Runs(p', v) && v != w ==> Runs(p, v);
  }

  lemma AddingKeepsOrder(p: Pool, q: nat, wake: Option<nat>)
    requires Inv(p) && Enabled(p, ProducerLooks(q, wake))
    ensures InOrder(Adding(p, q, wake)) && Drained(Adding(p, q, wake))
  {
    var p' := Adding(p, q, wake);
    if |p.queue| != p.capacity && !p.shutdown {
      assert p'.queue == p'.accepted[p'.taken..];
    }
    assert forall v :: Runs(p', v) ==> Runs(p, v);
  }

  lemma OthersKeepOrder(p: Pool, step: Step)
    requires Inv(p) && Enabled(p, step) && !step.WorkerLooks? && !step.ProducerLooks?
    ensures InOrder(After(p, step)) && Drained(After(p, step))
  {
    assert forall v :: Runs(After(p, step), v) ==> Runs(p, v);
  }

  /** The workers that run something stay as they are. */
  lemma RunsStay(p: Pool, p': Pool)
    requires RunOnce(p) && p'.taken == p.taken && p'.done == p.done
    requires forall w :: Runs(p', w) <==> Runs(p, w)
    requires forall w :: Runs(p, w) ==> w in p'.workers && p'.workers[w] == p.workers[w]
    ensures RunOnce(p')
  {
    forall i | 0 <= i < p.taken && i !in p.done ensures BeingRun(p', i) {
      var w :| Runs(p, w) && p.workers[w].index == i;
      assert Runs(p', w);
    }
  }

  lemma TakingRunsOnce(p: Pool, w: nat, rouse: Option<nat>)
    requires Inv(p) && Enabled(p, WorkerLooks(w, rouse)) && p.queue != []
    ensures RunOnce(Looking(p, w, rouse))
  {
    var p' := Looking(p, w, rouse);
    assert p'.workers == p.workers[w := Running(p.taken, p.queue[0])];
    forall i | 0 <= i < p'.taken && i !in p'.done ensures BeingRun(p', i) {
      if i == p.taken {
        assert Runs(p', w);
      } else {
        var v :| Runs(p, v) && p.workers[v].index == i;
        assert Runs(p', v);
      }
    }
    assert forall v :: Runs(p', v) && v != w ==> Runs(p, v);
  }

  lemma ReturningRunsOnce(p: Pool, w: nat)
    requires Inv(p) && Enabled(p, WorkerReturns(w))
    ensures RunOnce(After(p, WorkerReturns(w)))
  {
    var p', index := After(p, WorkerReturns(w)), p.workers[w].index;
    assert Runs(p, w);
    assert forall v :: Runs(p', v) <==> Runs(p, v) && v != w;
    forall i | 0 <= i < p'.taken && i !in p'.done ensures BeingRun(p', i) {
      var v :| Runs(p, v) && p.workers[v].index == i;
      assert Runs(p', v);
    }
  }

  /** Every step keeps the invariant. */
  lemma StepKeepsInv(p: Pool, step: Step)
    requires Inv(p) && Enabled(p, step)
    ensures Inv(After(p, step))
  {
    hide NoLostWakeup, InOrder, RunOnce, Drained;
    match step
    case WorkerLooks(w, rouse) =>
      LookingLosesNoWakeup(p, w, rouse);
      LookingKeepsOrder(p, w, rouse);
      if p.queue == [] {
        RunsStay(p, After(p, step));
      } else {
        TakingRunsOnce(p, w, rouse);
      }
    case ProducerLooks(q, wake) =>
      AddingLosesNoWakeup(p, q, wake);
      AddingKeepsOrder(p, q, wake);
      RunsStay(p, After(p, step));
    case WorkerReturns(w) =>
      OthersLoseNoWakeup(p, step);
      OthersKeepOrder(p, step);
      ReturningRunsOnce(p, w);
    case _ =>
      OthersLoseNoWakeup(p, step);
      OthersKeepOrder(p, step);
      RunsStay(p, After(p, step));
  }

  ghost predicate IsRun(pools: seq<Pool>, steps: seq<Step>) {
    && |pools| == |steps| + 1 && Init(pools[0])
    && forall i :: 0 <= i < |steps| ==> Enabled(pools[i], steps[i]) && pools[i + 1] == After(pools[i], steps[i])
  }

  lemma {:induction false} RunsKeepInv(pools: seq<Pool>, steps: seq<Step>, n: nat)
    requires IsRun(pools, steps) && n < |pools|
    ensures Inv(pools[n])
  {
    if n == 0 {
      InitOk(pools[0]);
    } else {
      RunsKeepInv(pools, steps, n - 1);
      assert Enabled(pools[n - 1], steps[n - 1]) && pools[n - 1 + 1] == After(pools[n - 1], steps[n - 1]);
      StepKeepsInv(pools[n - 1], steps[n - 1]);
    }
  }

  /** A worker that can go on by itself. */
  predicate Able(p: Pool, w: nat) {
    w in p.workers && (p.workers[w].Idle? || p.workers[w].Awake? || p.workers[w].Running?)
  }

  /** Before shutdown, as long as a worker sleeps, no fewer workers have been woken than tasks
      are queued; as long as a producer waits, no fewer producers have been roused than there
      are free places; and the queue never exceeds its capacity. */
  lemma WakeupsAreNotLost(pools: seq<Pool>, steps: seq<Step>, n: nat)
    requires IsRun(pools, steps) && n < |pools|
    ensures |pools[n].queue| <= pools[n].capacity
    ensures (exists w :: Sleeps(pools[n], w)) ==> !pools[n].shutdown && |AwakeWorkers(pools[n])| >= |pools[n].queue|
    ensures (exists q :: Waits(pools[n], q)) ==>
      !pools[n].shutdown && |RousedProducers(pools[n])| >= pools[n].capacity - |pools[n].queue|
  {
    RunsKeepInv(pools, steps, n);
  }

  /** As long as tasks are queued, some worker can go on; as long as there is room, a waiting
      producer is not alone: some producer can go on. */
  lemma PoolNeverSticks(pools: seq<Pool>, steps: seq<Step>, n: nat)
    requires IsRun(pools, steps) && n < |pools| && pools[n].workers != map[]
    ensures pools[n].queue != [] ==> exists w :: Able(pools[n], w)
    ensures (exists q :: Waits(pools[n], q)) && |pools[n].queue| < pools[n].capacity ==>
      exists q :: q in pools[n].producers && pools[n].producers[q] == Roused
    ensures pools[n].shutdown ==> forall w :: w in pools[n].workers ==> Able(pools[n], w) || pools[n].workers[w].Exited?
  {
    RunsKeepInv(pools, steps, n);
    var p := pools[n];
    if p.queue != [] {
      var w :| w in p.workers.Keys;
      if !Able(p, w) {
        assert Sleeps(p, w);
        var v :| v in AwakeWorkers(p);
        assert Able(p, v);
      }
    }
    if |p.queue| < p.capacity {
      forall q | Waits(p, q) ensures exists r :: r in p.producers && p.producers[r] == Roused {
        var r :| r in RousedProducers(p);
      }
    }
    forall w | p.shutdown && w in p.workers ensures Able(p, w) || p.workers[w].Exited? {
      assert !Sleeps(p, w);
    }
  }

  /** Once every worker has left, every accepted task has been run, exactly once. */
  lemma ShutdownDrains(pools: seq<Pool>, steps: seq<Step>, n: nat)
    requires IsRun(pools, steps) && n < |pools| && pools[n].workers != map[]
    requires forall w :: w in pools[n].workers ==> pools[n].workers[w].Exited?
    ensures pools[n].queue == [] && NoRepeats(pools[n].done)
    ensures forall i :: 0 <= i < |pools[n].accepted| <==> i in pools[n].done
  {
    RunsKeepInv(pools, steps, n);
    var p := pools[n];
    var w :| w in p.workers.Keys;
    assert p.workers[w].Exited?;
    assert forall v :: !Runs(p, v);
  }

  /** Tasks are handed out in the order in which they were accepted. */
  lemma FirstComeFirstServed(pools: seq<Pool>, steps: seq<Step>, n: nat, w: nat, rouse: Option<nat>)
    requires IsRun(pools, steps) && n < |steps| && steps[n] == WorkerLooks(w, rouse) && pools[n].queue != []
    ensures pools[n].taken < |pools[n].accepted|
    ensures pools[n + 1].workers[w] == Running(pools[n].taken, pools[n].accepted[pools[n].taken])
    ensures pools[n + 1].taken == pools[n].taken + 1
  {
    RunsKeepInv(pools, steps, n);
    assert pools[n + 1] == After(pools[n], steps[n]);
  }

  /** What producers have been told: accepted exactly of those whose task went into the queue,
      each once, and refused only after the shutdown began. */
  ghost predicate Answers(p: Pool) {
    && NoRepeats(p.accepted)
    && (forall q :: q in p.accepted <==> q in p.producers && p.producers[q] == Finished(true))
    && (forall q :: q in p.producers && p.producers[q] == Finished(false) ==> p.shutdown)
  }

  lemma StepKeepsAnswers(p: Pool, step: Step)
    requires Answers(p) && Enabled(p, step)
    ensures Answers(After(p, step))
  {
    if step.ProducerLooks? && |p.queue| != p.capacity && !p.shutdown {
      assert step.producer !in p.accepted;
      assert forall q :: q in p.accepted + [step.producer] <==> q in p.accepted || q == step.producer;
    }
  }

  lemma {:induction false} AnswersAreTrue(pools: seq<Pool>, steps: seq<Step>, n: nat)
    requires IsRun(pools, steps) && n < |pools|
    ensures Answers(pools[n])
  {
    if n > 0 {
      AnswersAreTrue(pools, steps, n - 1);
      assert Enabled(pools[n - 1], steps[n - 1]) && pools[n - 1 + 1] == After(pools[n - 1], steps[n - 1]);
      StepKeepsAnswers(pools[n - 1], steps[n - 1]);
    }
  }

  /** A task that is offered is refused after a shutdown, waits while there is no room, and is
      queued last otherwise, with a sleeping worker woken if there is one. */
  lemma OfferIsAnswered(pools: seq<Pool>, steps: seq<Step>, n: nat, q: nat, wake: Option<nat>)
    requires IsRun(pools, steps) && n < |steps| && steps[n] == ProducerLooks(q, wake)
    ensures var p, p' := pools[n], pools[n + 1];
      && q in p'.producers
      && (forall r :: r in p.producers && r != q ==> r in p'.producers && p'.producers[r] == p.producers[r])
      && (p'.producers[q] == Finished(false) <==> p.shutdown)
      && (p'.producers[q] == Finished(true) <==> !p.shutdown && |p.queue| < p.capacity)
      && (p'.producers[q] == Blocked <==> !p.shutdown && |p.queue| == p.capacity)
      && p'.queue == (if p'.producers[q] == Finished(true) then p.queue + [q] else p.queue)
      && (p'.producers[q] == Finished(true) && (exists w :: Sleeps(p, w)) ==>
            exists w :: Sleeps(p, w) && p'.workers == p.workers[w := Awake])
      && (p'.producers[q] != Finished(true) ==> p'.workers == p.workers)
  {
    RunsKeepInv(pools, steps, n);
    assert Enabled(pools[n], steps[n]) && pools[n + 1] == After(pools[n], steps[n]);
    assert |pools[n].queue| <= pools[n].capacity;
  }

  /** A worker that finds nothing to do leaves after a shutdown and sleeps otherwise; one that
      finds a task makes room, and rouses a waiting producer if there is one. */
  lemma WorkerGoesOn(pools: seq<Pool>, steps: seq<Step>, n: nat, w: nat, rouse: Option<nat>)
    requires IsRun(pools, steps) && n < |steps| && steps[n] == WorkerLooks(w, rouse)
    ensures var p, p' := pools[n], pools[n + 1];
      && w in p'.workers && (p'.workers[w] == Exited <==> p.queue == [] && p.shutdown)
      && (p'.workers[w] == Asleep <==> p.queue == [] && !p.shutdown)
      && (p'.workers[w].Running? <==> p.queue != [])
      && (p.queue != [] ==> p'.queue == p.queue[1..])
      && (p.queue != [] && (exists q :: Waits(p, q)) ==>
            exists q :: Waits(p, q) && p'.producers == p.producers[q := Roused])
  {
    assert Enabled(pools[n], steps[n]) && pools[n + 1] == After(pools[n], steps[n]);
  }

  /** A shutdown wakes every sleeping worker and every waiting producer. */
  lemma ShutdownWakesAll(pools: seq<Pool>, steps: seq<Step>, m: nat, n: nat)
    requires IsRun(pools, steps) && m < n < |pools| && steps[m] == Destroy
    ensures pools[n].shutdown && forall x :: !Sleeps(pools[n], x) && !Waits(pools[n], x)
  {
    ShutdownStays(pools, steps, m, n);
    RunsKeepInv(pools, steps, n);
  }

  lemma {:induction false} ShutdownStays(pools: seq<Pool>, steps: seq<Step>, m: nat, n: nat)
    requires IsRun(pools, steps) && m < n < |pools| && steps[m] == Destroy
    ensures pools[n].shutdown
    decreases n
  {
    assert pools[n - 1 + 1] == After(pools[n - 1], steps[n - 1]);
    if m < n - 1 {
      ShutdownStays(pools, steps, m, n - 1);
    }
  }
}
