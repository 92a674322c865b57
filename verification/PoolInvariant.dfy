/** The inductive invariant of the pool, one concern at a time. */
module PoolInvariant {
  import opened Sums
  import opened RingQueue
  import opened PoolState
  import opened PoolProtocol

  // ---- counting workers ----

  ghost function AvailableWeight(w: WorkerPc): nat { if w.Available() then 1 else 0 }
  ghost function LeftWeight(w: WorkerPc): nat { if w.LeftNormally() then 1 else 0 }
  ghost function GrantedWeight(p: ProducerPc): nat { if p.AddSignal? || p == AddUnlock(0) then 1 else 0 }
  ghost function SignalWeight(p: ProducerPc): nat { if p.AddSignal? then 1 else 0 }

  /** Weighs the workers that have `task` in hand. */
  ghost function HoldWeight(task: Task): WorkerPc -> nat {
    (w: WorkerPc) => if w.HoldsTask() && w.task == task then 1 else 0
  }

  /** How many copies of `task` the workers have in hand. */
  ghost function Held(ws: seq<WorkerPc>, task: Task): nat {
    Sum(ws, HoldWeight(task))
  }

  // ---- the invariant ----

  ghost predicate LockInv(s: State) {
    && (forall i | 0 <= i < |s.workers| :: s.workers[i].OwnsLock() <==> s.lock == Worker(i))
    && (forall p | 0 <= p < |s.producers| :: s.producers[p].OwnsLock() <==> s.lock == Producer(p))
    && (s.destroyer.OwnsLock() <==> s.lock == Destroyer)
    && (s.lock.Worker? ==> s.lock.w < |s.workers|)
    && (s.lock.Producer? ==> s.lock.p < |s.producers|)
  }

  /** First in, first out: what left the queue and what is in it is what was accepted, in order. */
  ghost predicate FifoInv(s: State)
    requires s.shared.Valid()
  {
    s.accepted == s.dequeued + s.shared.ring.Contents()
  }

  /** What the test of threadpool_add found stays so until it unlocks. */
  ghost predicate AnswersHold(s: State) {
    forall p | 0 <= p < |s.producers| ::
      && (s.producers[p].AddStore? ==> s.shared.AddError() == 0)
      && (s.producers[p].AddUnlock? && s.producers[p].err != 0 ==> s.producers[p].err == s.shared.AddError())
  }

  /** What a thread knows at a point inside the critical section. */
  ghost predicate StageInv(s: State) {
    && (forall i | 0 <= i < |s.workers| ::
          && (s.workers[i].Grabbing? ==> 0 < s.shared.ring.count && s.shared.shutdown != IMMEDIATE_SHUTDOWN)
          && (s.workers[i].Leaving? || s.workers[i].LeftNormally() ==>
                s.shared.shutdown == IMMEDIATE_SHUTDOWN
                || (s.shared.shutdown == GRACEFUL_SHUTDOWN && s.shared.ring.count == 0)))
    && AnswersHold(s)
  }

  /** Every accepted task belongs to a call that has returned 0 or is about to. */
  ghost predicate AnswerInv(s: State) {
    |s.accepted| == s.succeeded + Sum(s.producers, GrantedWeight)
  }

  /** The three status arrays follow the worker of the slot; only the slot of a cancelled worker is stale. */
  ghost predicate SlotFlags(s: State, i: nat)
    requires Shaped(s) && i < |s.workers|
  {
    var w := s.workers[i];
    && (w.HoldsTask() ==> s.shared.types[i] == w.task.ftype)
    && (!w.HoldsTask() && !w.ClearBusy? && !w.ClearType? && !w.Cancelled? ==> s.shared.types[i] == 0)
    && (!w.Cancelled? ==> (s.shared.busy[i] <==> w.SetFunc? || w.Running? || w.ClearBusy?))
    && (w.Running? ==> s.shared.funcs[i] == w.task.func)
    && (!w.Running? && !w.ClearBusy? && !w.ClearType? && !w.ClearFunc? && !w.Cancelled? ==> s.shared.funcs[i] == NULL)
    && (s.deleter.DelClearType? && s.deleter.i == i ==> !s.shared.busy[i])
    && (s.deleter.DelClearFunc? && s.deleter.i == i ==> !s.shared.busy[i] && s.shared.types[i] == 0)
    && (s.deleter.DelSpawn? && s.deleter.i == i ==>
          !s.shared.busy[i] && s.shared.types[i] == 0 && s.shared.funcs[i] == NULL)
  }

  ghost predicate FlagsInv(s: State)
    requires Shaped(s)
  {
    forall i | 0 <= i < |s.workers| :: SlotFlags(s, i)
  }

  ghost predicate StartedInv(s: State) {
    s.shared.started == |s.workers| - Sum(s.workers, LeftWeight)
  }

  /** Every dequeued copy of `task` is in some worker's hands, or ran to completion, or was aborted. */
  ghost predicate Accounted(s: State, task: Task) {
    multiset(s.dequeued)[task] == Held(s.workers, task) + s.completed[task] + s.aborted[task]
  }

  ghost predicate ConserveInv(s: State) {
    forall task: Task :: Accounted(s, task)
  }

  /** How far the shutdown has come. */
  ghost predicate ShutdownInv(s: State) {
    && ShutdownMode(s.shared.shutdown)
    && (s.destroyer.FlagUnset() ==> s.shared.shutdown == ALIVE)
    && (s.destroyer.DestroyWant? || s.destroyer.DestroySet? ==> ShutdownMode(s.destroyer.mode))
    && (s.destroyer.BroadcastDone() && s.shared.shutdown != ALIVE ==>
          forall i | 0 <= i < |s.workers| :: !s.workers[i].Asleep?)
    && (s.destroyer.DestroyLook? || s.destroyer.DestroyShoot? ==>
          s.shared.shutdown == IMMEDIATE_SHUTDOWN)
  }

  /** The join loops: whom they have waited for, and that del and destroy exclude each other. */
  ghost predicate JoinInv(s: State) {
    && (s.destroyer.DestroyLook? ==> s.destroyer.i <= |s.workers|)
    && (s.destroyer.DestroyShoot? ==> s.destroyer.i < |s.workers|)
    && (s.destroyer.DestroyJoin? ==> s.destroyer.i <= |s.workers|)
    && (forall i | 0 <= i < |s.workers| && s.destroyer.HasJoined(i) :: s.workers[i].Gone())
    && (s.destroyer.DestroyDone? ==> (s.destroyer.freed <==> s.shared.started <= 0))
    && (!s.deleter.DelIdle? ==> s.destroyer.DestroyIdle?)
    && (s.deleter.DelScan? ==> s.deleter.i <= |s.workers|)
    && (!s.deleter.DelIdle? && !s.deleter.DelScan? ==> s.deleter.i < |s.workers|)
    && (forall i | 0 <= i < |s.workers| && s.deleter.Joined(i) :: s.workers[i].Cancelled?)
  }

  /** Del's target is cancelled, and besides it only, in an immediate shutdown, workers seen with a nonzero type. */
  ghost predicate CancelInv(s: State)
    requires Shaped(s)
  {
    && (forall i | 0 <= i < |s.workers| && s.deleter.Targets(i) :: s.cancelled[i])
    && (forall i | 0 <= i < |s.workers| && (s.cancelled[i] || s.workers[i].Cancelled?) ::
          && s.cancelled[i]
          && (s.deleter.Targets(i)
              || (s.shared.shutdown == IMMEDIATE_SHUTDOWN && s.destroyer.MayHaveShot(i))))
    && (forall i | 0 <= i < |s.workers| && s.workers[i].HoldsTask()
                   && s.shared.shutdown == IMMEDIATE_SHUTDOWN
                   && (s.cancelled[i] || (s.destroyer.DestroyShoot? && s.destroyer.i == i)) ::
          s.workers[i].task.ftype != 0)
  }

  /** No lost wakeup: nobody sleeps, or there are at least as many available workers as pending
      tasks, where a signal about to be sent counts as one. */
  ghost predicate WakeInv(s: State) {
    || (forall i | 0 <= i < |s.workers| :: !s.workers[i].Asleep?)
    || s.shared.ring.count <= Sum(s.workers, AvailableWeight) + Sum(s.producers, SignalWeight)
  }

  ghost predicate Inv(s: State) {
    && Shaped(s) && LockInv(s) && FifoInv(s) && StageInv(s) && FlagsInv(s) && StartedInv(s)
    && ConserveInv(s) && ShutdownInv(s) && JoinInv(s) && CancelInv(s) && WakeInv(s) && AnswerInv(s)
  }

  // ---- it holds at the start ----

  lemma InitHasInv(s: State)
    requires Init(s)
    ensures Inv(s)
  {
    SumConstant(s.workers, LeftWeight, 0);
    SumConstant(s.producers, GrantedWeight, 0);
    forall task: Task
      ensures Held(s.workers, task) == 0
    {
      SumConstant(s.workers, HoldWeight(task), 0);
    }
    InitFlags(s);
  }

  lemma InitFlags(s: State)
    requires Init(s)
    ensures FlagsInv(s) && LockInv(s) && StageInv(s) && CancelInv(s)
  {
  }

  // ---- every step keeps it ----

  /** Shape and queue order: only a store and a grab touch the ring. */
  lemma StepKeepsFifo(s: State, e: Event)
    requires Shaped(s) && LockInv(s) && FifoInv(s) && StageInv(s) && Enabled(s, e)
    ensures Shaped(Apply(s, e)) && FifoInv(Apply(s, e))
    ensures |Apply(s, e).workers| == |s.workers| && |Apply(s, e).producers| == |s.producers|
  {
    match e
    case WorkerStep(i) => WorkerKeepsFifo(s, i);
    case ProducerStep(p, woken) => ProducerKeepsFifo(s, p, woken);
    case _ =>
  }

  lemma WorkerKeepsFifo(s: State, i: nat)
    requires Shaped(s) && FifoInv(s) && Enabled(s, WorkerStep(i))
    ensures var s' := ApplyWorker(s, i); Shaped(s') && FifoInv(s') && |s'.workers| == |s.workers|
  {
    if s.workers[i].Grabbing? {
      PopDropsOldest(s.shared.ring);
    }
  }

  lemma ProducerKeepsFifo(s: State, p: nat, woken: set<nat>)
    requires Shaped(s) && FifoInv(s) && StageInv(s) && Enabled(s, ProducerStep(p, woken))
    ensures var s' := ApplyProducer(s, p, woken); Shaped(s') && FifoInv(s') && |s'.workers| == |s.workers|
  {
    if s.producers[p].AddStore? {
      PushAppends(s.shared.ring, s.producers[p].task);
    }
  }

  // -- the lock and its owner

  lemma StepKeepsLock(s: State, e: Event)
    requires Shaped(s) && LockInv(s) && JoinInv(s)
    requires Enabled(s, e)
    ensures LockInv(Apply(s, e))
  {
    match e
    case WorkerStep(i) => WorkerKeepsLock(s, i);
    case ProducerStep(p, woken) => ProducerKeepsLock(s, p, woken);
    case DeleterStep => DeleterKeepsLock(s);
    case DestroyerStep => DestroyerKeepsLock(s);
    case _ =>
  }

  lemma WorkerKeepsLock(s: State, i: nat)
    requires Shaped(s) && LockInv(s)
    requires Enabled(s, WorkerStep(i))
    ensures LockInv(ApplyWorker(s, i))
  {
  }

  lemma ProducerKeepsLock(s: State, p: nat, woken: set<nat>)
    requires Shaped(s) && LockInv(s)
    requires Enabled(s, ProducerStep(p, woken))
    ensures LockInv(ApplyProducer(s, p, woken))
  {
  }

  lemma DeleterKeepsLock(s: State)
    requires Shaped(s) && LockInv(s) && JoinInv(s)
    requires Enabled(s, DeleterStep)
    ensures LockInv(ApplyDeleter(s))
  {
  }

  lemma DestroyerKeepsLock(s: State)
    requires Shaped(s) && LockInv(s)
    requires Enabled(s, DestroyerStep)
    ensures LockInv(ApplyDestroyer(s))
  {
  }

  // -- what a thread knows inside the critical section

  lemma StepKeepsStage(s: State, e: Event)
    requires Shaped(s) && LockInv(s) && StageInv(s) && ShutdownInv(s) && JoinInv(s)
    requires Enabled(s, e)
    ensures StageInv(Apply(s, e))
  {
    match e
    case WorkerStep(i) => WorkerKeepsStage(s, i);
    case ProducerStep(p, woken) => ProducerKeepsStage(s, p, woken);
    case DeleterStep => DeleterKeepsStage(s);
    case DestroyerStep => DestroyerKeepsStage(s);
    case _ =>
  }

  lemma WorkerKeepsStage(s: State, i: nat)
    requires Shaped(s) && LockInv(s) && StageInv(s) && ShutdownInv(s)
    requires Enabled(s, WorkerStep(i))
    ensures StageInv(ApplyWorker(s, i))
  {
    WorkerKeepsAnswers(s, i);
  }

  lemma WorkerKeepsAnswers(s: State, i: nat)
    requires Shaped(s) && LockInv(s) && AnswersHold(s)
    requires Enabled(s, WorkerStep(i))
    ensures AnswersHold(ApplyWorker(s, i))
  {
  }

  lemma ProducerKeepsStage(s: State, p: nat, woken: set<nat>)
    requires Shaped(s) && LockInv(s) && StageInv(s)
    requires Enabled(s, ProducerStep(p, woken))
    ensures StageInv(ApplyProducer(s, p, woken))
  {
  }

  lemma DeleterKeepsStage(s: State)
    requires Shaped(s) && StageInv(s) && JoinInv(s)
    requires Enabled(s, DeleterStep)
    ensures StageInv(ApplyDeleter(s))
  {
  }

  lemma DestroyerKeepsStage(s: State)
    requires Shaped(s) && LockInv(s) && StageInv(s) && ShutdownInv(s)
    requires Enabled(s, DestroyerStep)
    ensures StageInv(ApplyDestroyer(s))
  {
  }

  // -- the status arrays

  lemma StepKeepsFlags(s: State, e: Event)
    requires Shaped(s) && FlagsInv(s) && JoinInv(s)
    requires Enabled(s, e) && Shaped(Apply(s, e))
    ensures FlagsInv(Apply(s, e))
  {
    match e
    case WorkerStep(i) => WorkerKeepsFlags(s, i);
    case ProducerStep(p, woken) => ProducerKeepsFlags(s, p, woken);
    case DeleterStep => DeleterKeepsFlags(s);
    case DestroyerStep => DestroyerKeepsFlags(s);
    case _ =>
      var s' := Apply(s, e);
      forall k | 0 <= k < |s.workers|
        ensures SlotFlags(s', k)
      {
        assert SlotFlags(s, k);
      }
  }

  lemma WorkerKeepsOwnFlags(s: State, i: nat)
    requires Shaped(s) && JoinInv(s)
    requires Enabled(s, WorkerStep(i)) && Shaped(ApplyWorker(s, i)) && SlotFlags(s, i)
    ensures SlotFlags(ApplyWorker(s, i), i)
  {
  }

  /** A worker writes only the cells of its own slot. */
  lemma WorkerWritesOwnSlot(s: State, i: nat, k: nat)
    requires Shaped(s) && k < |s.workers| && k != i
    requires Enabled(s, WorkerStep(i)) && Shaped(ApplyWorker(s, i))
    ensures var s' := ApplyWorker(s, i);
            && s'.workers[k] == s.workers[k] && s'.deleter == s.deleter
            && s'.shared.types[k] == s.shared.types[k] && s'.shared.busy[k] == s.shared.busy[k]
            && s'.shared.funcs[k] == s.shared.funcs[k]
  {
  }

  lemma SameCellsSameFlags(s: State, s': State, k: nat)
    requires Shaped(s) && Shaped(s') && k < |s.workers| && k < |s'.workers| && SlotFlags(s, k)
    requires s'.workers[k] == s.workers[k] && s'.deleter == s.deleter
    requires s'.shared.types[k] == s.shared.types[k] && s'.shared.busy[k] == s.shared.busy[k]
    requires s'.shared.funcs[k] == s.shared.funcs[k]
    ensures SlotFlags(s', k)
  {
  }

  lemma WorkerKeepsFlags(s: State, i: nat)
    requires Shaped(s) && FlagsInv(s) && JoinInv(s)
    requires Enabled(s, WorkerStep(i)) && Shaped(ApplyWorker(s, i))
    ensures FlagsInv(ApplyWorker(s, i))
  {
    var s' := ApplyWorker(s, i);
    assert |s'.workers| == |s.workers|;
    forall k | 0 <= k < |s.workers|
      ensures SlotFlags(s', k)
    {
      if k == i {
        WorkerKeepsOwnFlags(s, i);
      } else {
        WorkerWritesOwnSlot(s, i, k);
        SameCellsSameFlags(s, s', k);
      }
    }
  }

  lemma ProducerKeepsFlags(s: State, p: nat, woken: set<nat>)
    requires Shaped(s) && FlagsInv(s)
    requires Enabled(s, ProducerStep(p, woken)) && Shaped(ApplyProducer(s, p, woken))
    ensures FlagsInv(ApplyProducer(s, p, woken))
  {
    var s' := ApplyProducer(s, p, woken);
    forall k | 0 <= k < |s.workers|
      ensures SlotFlags(s', k)
    {
      assert SlotFlags(s, k);
    }
  }

  lemma DeleterKeepsFlags(s: State)
    requires Shaped(s) && FlagsInv(s) && JoinInv(s)
    requires Enabled(s, DeleterStep) && Shaped(ApplyDeleter(s))
    ensures FlagsInv(ApplyDeleter(s))
  {
    var s' := ApplyDeleter(s);
    forall k | 0 <= k < |s.workers|
      ensures SlotFlags(s', k)
    {
      assert SlotFlags(s, k);
    }
  }

  lemma DestroyerKeepsFlags(s: State)
    requires Shaped(s) && FlagsInv(s)
    requires Enabled(s, DestroyerStep) && Shaped(ApplyDestroyer(s))
    ensures FlagsInv(ApplyDestroyer(s))
  {
    var s' := ApplyDestroyer(s);
    forall k | 0 <= k < |s.workers|
      ensures SlotFlags(s', k)
    {
      assert SlotFlags(s, k);
    }
  }

  // -- the shutdown flag

  lemma StepKeepsShutdown(s: State, e: Event)
    requires Shaped(s) && ShutdownInv(s)
    requires Enabled(s, e)
    ensures ShutdownInv(Apply(s, e))
  {
    match e
    case WorkerStep(i) => WorkerKeepsShutdown(s, i);
    case ProducerStep(p, woken) => ProducerKeepsShutdown(s, p, woken);
    case DeleterStep => DeleterKeepsShutdown(s);
    case DestroyerStep => DestroyerKeepsShutdown(s);
    case _ =>
  }

  lemma WorkerKeepsShutdown(s: State, i: nat)
    requires Shaped(s) && ShutdownInv(s)
    requires Enabled(s, WorkerStep(i))
    ensures ShutdownInv(ApplyWorker(s, i))
  {
  }

  lemma ProducerKeepsShutdown(s: State, p: nat, woken: set<nat>)
    requires Shaped(s) && ShutdownInv(s)
    requires Enabled(s, ProducerStep(p, woken))
    ensures ShutdownInv(ApplyProducer(s, p, woken))
  {
  }

  lemma DeleterKeepsShutdown(s: State)
    requires Shaped(s) && ShutdownInv(s)
    requires Enabled(s, DeleterStep)
    ensures ShutdownInv(ApplyDeleter(s))
  {
  }

  lemma DestroyerKeepsShutdown(s: State)
    requires Shaped(s) && ShutdownInv(s)
    requires Enabled(s, DestroyerStep)
    ensures ShutdownInv(ApplyDestroyer(s))
  {
  }

  // -- the join loops

  lemma StepKeepsJoin(s: State, e: Event)
    requires Shaped(s) && StageInv(s) && ShutdownInv(s) && JoinInv(s)
    requires Enabled(s, e)
    ensures JoinInv(Apply(s, e))
  {
    match e
    case WorkerStep(i) => WorkerKeepsJoin(s, i);
    case ProducerStep(p, woken) => ProducerKeepsJoin(s, p, woken);
    case DeleterStep => DeleterKeepsJoin(s);
    case DestroyerStep => DestroyerKeepsJoin(s);
    case _ =>
  }

  lemma WorkerKeepsJoin(s: State, i: nat)
    requires Shaped(s) && JoinInv(s)
    requires Enabled(s, WorkerStep(i))
    ensures JoinInv(ApplyWorker(s, i))
  {
    var pc := WorkerMovesOneSlot(s, i);
    SlotMoveKeepsJoin(s, ApplyWorker(s, i), i, pc);
  }

  /** A worker that has not left moves in its own slot; the join loops do not look at it yet. */
  lemma SlotMoveKeepsJoin(s: State, s': State, i: nat, pc: WorkerPc)
    requires JoinInv(s) && i < |s.workers| && !s.workers[i].Gone()
    requires s'.workers == s.workers[i := pc] && s'.destroyer == s.destroyer && s'.deleter == s.deleter
    ensures JoinInv(s')
  {
    assert s.destroyer.DestroyDone? ==> s.destroyer.HasJoined(i);
  }

  lemma ProducerKeepsJoin(s: State, p: nat, woken: set<nat>)
    requires Shaped(s) && JoinInv(s)
    requires Enabled(s, ProducerStep(p, woken))
    ensures JoinInv(ApplyProducer(s, p, woken))
  {
  }

  lemma DeleterKeepsJoin(s: State)
    requires Shaped(s) && StageInv(s) && ShutdownInv(s) && JoinInv(s)
    requires Enabled(s, DeleterStep)
    ensures JoinInv(ApplyDeleter(s))
  {
  }

  lemma DestroyerKeepsJoin(s: State)
    requires Shaped(s) && JoinInv(s)
    requires Enabled(s, DestroyerStep)
    ensures JoinInv(ApplyDestroyer(s))
  {
  }

  // -- who may be cancelled

  lemma StepKeepsCancel(s: State, e: Event)
    requires Shaped(s) && StageInv(s) && FlagsInv(s) && ShutdownInv(s) && JoinInv(s) && CancelInv(s)
    requires Enabled(s, e) && Shaped(Apply(s, e))
    ensures CancelInv(Apply(s, e))
  {
    match e
    case WorkerStep(i) => WorkerKeepsCancel(s, i);
    case ProducerStep(p, woken) => ProducerKeepsCancel(s, p, woken);
    case DeleterStep => DeleterKeepsCancel(s);
    case DestroyerStep => DestroyerKeepsCancel(s);
    case _ =>
  }

  lemma WorkerKeepsCancel(s: State, i: nat)
    requires Shaped(s) && StageInv(s) && CancelInv(s)
    requires Enabled(s, WorkerStep(i)) && Shaped(ApplyWorker(s, i))
    ensures CancelInv(ApplyWorker(s, i))
  {
    var pc := WorkerMovesOneSlot(s, i);
    WorkerGetsNothingNow(s, i);
    SlotMoveKeepsCancel(s, ApplyWorker(s, i), i, pc);
  }

  /** In an immediate shutdown a worker's step gives it no new task, and no step of its own cancels it. */
  lemma WorkerGetsNothingNow(s: State, i: nat)
    requires Shaped(s) && StageInv(s) && Enabled(s, WorkerStep(i))
    ensures var s' := ApplyWorker(s, i); var w, w' := s.workers[i], s'.workers[i];
            && s'.cancelled == s.cancelled && s'.deleter == s.deleter && s'.destroyer == s.destroyer
            && s'.shared.shutdown == s.shared.shutdown && !w'.Cancelled?
            && (s.shared.shutdown == IMMEDIATE_SHUTDOWN && w'.HoldsTask() ==> w.HoldsTask() && w'.task == w.task)
  {
  }

  lemma SlotMoveKeepsCancel(s: State, s': State, i: nat, pc: WorkerPc)
    requires Shaped(s) && Shaped(s') && CancelInv(s) && i < |s.workers| && s'.workers == s.workers[i := pc]
    requires s'.cancelled == s.cancelled && s'.deleter == s.deleter && s'.destroyer == s.destroyer
    requires s'.shared.shutdown == s.shared.shutdown && !pc.Cancelled?
    requires s.shared.shutdown == IMMEDIATE_SHUTDOWN && pc.HoldsTask() ==>
               s.workers[i].HoldsTask() && pc.task == s.workers[i].task
    ensures CancelInv(s')
  {
  }

  lemma ProducerKeepsCancel(s: State, p: nat, woken: set<nat>)
    requires Shaped(s) && CancelInv(s)
    requires Enabled(s, ProducerStep(p, woken)) && Shaped(ApplyProducer(s, p, woken))
    ensures CancelInv(ApplyProducer(s, p, woken))
  {
  }

  lemma DeleterKeepsCancel(s: State)
    requires Shaped(s) && ShutdownInv(s) && JoinInv(s) && CancelInv(s)
    requires Enabled(s, DeleterStep) && Shaped(ApplyDeleter(s))
    ensures CancelInv(ApplyDeleter(s))
  {
  }

  lemma DestroyerKeepsCancel(s: State)
    requires Shaped(s) && FlagsInv(s) && ShutdownInv(s) && JoinInv(s) && CancelInv(s)
    requires Enabled(s, DestroyerStep) && Shaped(ApplyDestroyer(s))
    ensures CancelInv(ApplyDestroyer(s))
  {
    assert s.destroyer.DestroyLook? && s.destroyer.i < |s.workers| ==> SlotFlags(s, s.destroyer.i);
  }

  // -- the count of started workers

  lemma StepKeepsStarted(s: State, e: Event)
    requires Shaped(s) && StartedInv(s) && JoinInv(s) && Enabled(s, e)
    ensures StartedInv(Apply(s, e))
  {
    match e
    case WorkerStep(i) => WorkerKeepsStarted(s, i);
    case SpuriousWake(i) => SumUpdate(s.workers, i, Woken, LeftWeight);
    case CancelTakesEffect(i) => SumUpdate(s.workers, i, Cancelled, LeftWeight);
    case ProducerStep(p, woken) => WakingMovesNobodyOut(s.workers, Apply(s, e).workers);
    case DestroyerStep => WakingMovesNobodyOut(s.workers, Apply(s, e).workers);
    case DeleterStep => DeleterKeepsStarted(s);
    case _ =>
  }

  lemma WorkerKeepsStarted(s: State, i: nat)
    requires Shaped(s) && StartedInv(s) && Enabled(s, WorkerStep(i))
    ensures StartedInv(ApplyWorker(s, i))
  {
    var pc := WorkerMovesOneSlot(s, i);
    SumUpdate(s.workers, i, pc, LeftWeight);
  }

  /** Killing and refilling a slot is neutral. */
  lemma DeleterKeepsStarted(s: State)
    requires Shaped(s) && StartedInv(s) && JoinInv(s) && Enabled(s, DeleterStep)
    ensures StartedInv(ApplyDeleter(s))
  {
    if s.deleter.DelSpawn? {
      SumUpdate(s.workers, s.deleter.i, WantLock, LeftWeight);
    }
  }

  /** Where a worker's step leaves its slot; the other slots stay. */
  lemma WorkerMovesOneSlot(s: State, i: nat) returns (pc: WorkerPc)
    requires Shaped(s) && Enabled(s, WorkerStep(i))
    ensures pc == ApplyWorker(s, i).workers[i] && ApplyWorker(s, i).workers == s.workers[i := pc]
    ensures !s.workers[i].Gone()
  {
    pc := ApplyWorker(s, i).workers[i];
  }

  /** Waking sleepers changes neither who has left nor, below, who holds a task. */
  lemma WakingMovesNobodyOut(ws: seq<WorkerPc>, vs: seq<WorkerPc>)
    requires |ws| == |vs|
    requires forall i | 0 <= i < |ws| :: vs[i] == ws[i] || (ws[i].Asleep? && vs[i].Woken?)
    ensures Sum(ws, LeftWeight) == Sum(vs, LeftWeight)
  {
    SumMonotone(ws, vs, LeftWeight);
    SumMonotone(vs, ws, LeftWeight);
  }

  lemma WakingMovesNoTask(ws: seq<WorkerPc>, vs: seq<WorkerPc>, task: Task)
    requires |ws| == |vs|
    requires forall i | 0 <= i < |ws| :: vs[i] == ws[i] || (ws[i].Asleep? && vs[i].Woken?)
    ensures Held(ws, task) == Held(vs, task)
  {
    SumMonotone(ws, vs, HoldWeight(task));
    SumMonotone(vs, ws, HoldWeight(task));
  }

  // -- conservation

  lemma StepKeepsConserve(s: State, e: Event)
    requires Shaped(s) && ConserveInv(s) && JoinInv(s) && Enabled(s, e)
    ensures ConserveInv(Apply(s, e))
  {
    forall task: Task
      ensures Accounted(Apply(s, e), task)
    {
      assert Accounted(s, task);
      StepKeepsAccount(s, e, task);
    }
  }

  lemma StepKeepsAccount(s: State, e: Event, task: Task)
    requires Shaped(s) && Accounted(s, task) && JoinInv(s) && Enabled(s, e)
    ensures Accounted(Apply(s, e), task)
  {
    match e
    case WorkerStep(i) => WorkerKeepsAccount(s, i, task);
    case SpuriousWake(i) => SumUpdate(s.workers, i, Woken, HoldWeight(task));
    case CancelTakesEffect(i) => SumUpdate(s.workers, i, Cancelled, HoldWeight(task));
    case ProducerStep(p, woken) => ProducerKeepsAccount(s, p, woken, task);
    case DestroyerStep => WakingMovesNoTask(s.workers, ApplyDestroyer(s).workers, task);
    case DeleterStep => DeleterKeepsAccount(s, task);
    case _ =>
  }

  lemma ProducerKeepsAccount(s: State, p: nat, woken: set<nat>, task: Task)
    requires Shaped(s) && Accounted(s, task) && Enabled(s, ProducerStep(p, woken))
    ensures Accounted(ApplyProducer(s, p, woken), task)
  {
    WakingMovesNoTask(s.workers, ApplyProducer(s, p, woken).workers, task);
  }

  lemma DeleterKeepsAccount(s: State, task: Task)
    requires Shaped(s) && Accounted(s, task) && JoinInv(s) && Enabled(s, DeleterStep)
    ensures Accounted(ApplyDeleter(s), task)
  {
    if s.deleter.DelSpawn? {
      SumUpdate(s.workers, s.deleter.i, WantLock, HoldWeight(task));
    }
  }

  lemma WorkerKeepsAccount(s: State, i: nat, task: Task)
    requires Shaped(s) && Accounted(s, task) && Enabled(s, WorkerStep(i))
    ensures Accounted(ApplyWorker(s, i), task)
  {
    var pc := WorkerMovesOneSlot(s, i);
    SumUpdate(s.workers, i, pc, HoldWeight(task));
    WorkerHandsOver(s, i);
  }

  /** A worker takes a task from the queue or gives one up as completed; else it keeps what it has. */
  lemma WorkerHandsOver(s: State, i: nat)
    requires Shaped(s) && Enabled(s, WorkerStep(i))
    ensures
      var s' := ApplyWorker(s, i); var w, w' := s.workers[i], s'.workers[i];
      && s'.aborted == s.aborted
      && (!w.HoldsTask() && w'.HoldsTask() ==>
            s'.dequeued == s.dequeued + [w'.task] && s'.completed == s.completed)
      && (w.HoldsTask() && !w'.HoldsTask() ==>
            s'.dequeued == s.dequeued && s'.completed == s.completed + multiset{w.task})
      && ((w.HoldsTask() <==> w'.HoldsTask()) ==>
            s'.dequeued == s.dequeued && s'.completed == s.completed && (w.HoldsTask() ==> w'.task == w.task))
  {
  }

  // -- wakeups

  lemma StepKeepsWake(s: State, e: Event)
    requires Shaped(s) && LockInv(s) && ShutdownInv(s) && JoinInv(s) && WakeInv(s) && Enabled(s, e)
    ensures WakeInv(Apply(s, e))
  {
    match e
    case WorkerStep(i) => WorkerKeepsWake(s, i);
    case SpuriousWake(i) => SumUpdate(s.workers, i, Woken, AvailableWeight);
    case CancelTakesEffect(i) => SumUpdate(s.workers, i, Cancelled, AvailableWeight);
    case CallAdd(p, task) => SumUpdate(s.producers, p, Apply(s, e).producers[p], SignalWeight);
    case ProducerStep(p, woken) => ProducerKeepsWake(s, p, woken);
    case DeleterStep => DeleterKeepsWake(s);
    case DestroyerStep => DestroyerKeepsWake(s);
    case CallDel(_) =>
    case CallDestroy(_) =>
  }

  lemma DestroyerKeepsWake(s: State)
    requires Shaped(s) && WakeInv(s) && Enabled(s, DestroyerStep)
    ensures WakeInv(ApplyDestroyer(s))
  {
  }

  /** A worker that goes to sleep has just seen an empty queue; one that leaves the loop has
      seen the shutdown flag, and the broadcast has emptied the wait queue by then. */
  lemma WorkerKeepsWake(s: State, i: nat)
    requires Shaped(s) && LockInv(s) && ShutdownInv(s) && WakeInv(s) && Enabled(s, WorkerStep(i))
    ensures WakeInv(ApplyWorker(s, i))
  {
    var pc := WorkerMovesOneSlot(s, i);
    SumUpdate(s.workers, i, pc, AvailableWeight);
  }

  /** The stored task is covered by the pending signal, and the signal by the worker it wakes. */
  lemma ProducerKeepsWake(s: State, p: nat, woken: set<nat>)
    requires Shaped(s) && WakeInv(s) && Enabled(s, ProducerStep(p, woken))
    ensures WakeInv(ApplyProducer(s, p, woken))
  {
    var s' := ApplyProducer(s, p, woken);
    SumUpdate(s.producers, p, s'.producers[p], SignalWeight);
    if s.producers[p].AddSignal? {
      SumMonotone(s.workers, s'.workers, AvailableWeight);
      if woken != {} {
        var i :| i in woken;
        assert AvailableWeight(s.workers[i]) < AvailableWeight(s'.workers[i]);
      }
    }
  }

  lemma DeleterKeepsWake(s: State)
    requires Shaped(s) && JoinInv(s) && WakeInv(s) && Enabled(s, DeleterStep)
    ensures WakeInv(ApplyDeleter(s))
  {
    if s.deleter.DelSpawn? {
      SumUpdate(s.workers, s.deleter.i, WantLock, AvailableWeight);
    }
  }

  // -- what threadpool_add answers

  lemma StepKeepsAnswer(s: State, e: Event)
    requires Shaped(s) && AnswerInv(s) && Enabled(s, e)
    ensures AnswerInv(Apply(s, e))
  {
    match e
    case CallAdd(p, task) => SumUpdate(s.producers, p, Apply(s, e).producers[p], GrantedWeight);
    case ProducerStep(p, woken) => SumUpdate(s.producers, p, ApplyProducer(s, p, woken).producers[p], GrantedWeight);
    case _ =>
  }

  // -- all of it

  lemma StepKeepsInv(s: State, e: Event)
    requires Inv(s) && Enabled(s, e)
    ensures Inv(Apply(s, e)) && |Apply(s, e).workers| == |s.workers|
  {
    StepKeepsFifo(s, e);
    StepKeepsLock(s, e);
    StepKeepsStage(s, e);
    StepKeepsFlags(s, e);
    StepKeepsStarted(s, e);
    StepKeepsConserve(s, e);
    StepKeepsShutdown(s, e);
    StepKeepsJoin(s, e);
    StepKeepsCancel(s, e);
    StepKeepsWake(s, e);
    StepKeepsAnswer(s, e);
  }
}
