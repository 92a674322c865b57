/** The pool as a transition system: any number of workers and of threads calling `threadpool_add`,
    one thread that calls `threadpool_del`, one that calls `threadpool_destroy`. Each step is one
    access to shared state; the lock is explicit. */
module PoolProtocol {
  import opened PoolState

  /** Where a worker is in `threadpool_thread`. */
  datatype WorkerPc =
    | WantLock              // before pthread_mutex_lock
    | Testing               // owns the lock, at the loop test
    | Asleep                // inside pthread_cond_wait, without the lock
    | Woken                 // inside pthread_cond_wait, competing for the lock
    | Grabbing              // owns the lock, about to take the oldest task
    | Unlocking(task: Task) // owns the lock, task in hand
    | SetBusy(task: Task)
    | SetFunc(task: Task)
    | Running(task: Task)   // inside the task body
    | ClearBusy
    | ClearType
    | ClearFunc
    | Leaving               // owns the lock, out of the loop
    | LeaveUnlock           // owns the lock, no longer counted in started
    | Exited
    | Cancelled
  {
    predicate OwnsLock() { Testing? || Grabbing? || Unlocking? || Leaving? || LeaveUnlock? }

    predicate HoldsTask() { Unlocking? || SetBusy? || SetFunc? || Running? }

    /** Awake, without a task, and on the way back to the loop test. */
    predicate Available() {
      WantLock? || Testing? || Woken? || Grabbing? || ClearBusy? || ClearType? || ClearFunc?
    }

    predicate LeftNormally() { LeaveUnlock? || Exited? }

    predicate Gone() { Exited? || Cancelled? }
  }

  /** Where a caller of `threadpool_add` is. */
  datatype ProducerPc =
    | Ready                 // between calls
    | AddWant(task: Task)
    | AddTest(task: Task)   // owns the lock
    | AddStore(task: Task)  // owns the lock
    | AddSignal             // owns the lock, task stored
    | AddUnlock(err: int)   // owns the lock
    | AddReturned(err: int)
  {
    predicate OwnsLock() { AddTest? || AddStore? || AddSignal? || AddUnlock? }

    predicate BetweenCalls() { Ready? || AddReturned? }
  }

  /** Where the caller of `threadpool_del` is. */
  datatype DeleterPc =
    | DelIdle
    | DelScan(i: nat, func: FuncPtr)
    | DelCancel(i: nat)
    | DelJoin(i: nat)
    | DelClearBusy(i: nat)
    | DelClearType(i: nat)
    | DelClearFunc(i: nat)
    | DelSpawn(i: nat)
  {
    /** The slot it is about to cancel or has cancelled and not yet refilled. */
    predicate Targets(k: nat) {
      (DelJoin? || DelClearBusy? || DelClearType? || DelClearFunc? || DelSpawn?) && i == k
    }

    predicate Joined(k: nat) {
      (DelClearBusy? || DelClearType? || DelClearFunc? || DelSpawn?) && i == k
    }
  }

  /** Where the caller of `threadpool_destroy` is. */
  datatype DestroyerPc =
    | DestroyIdle
    | DestroyWant(mode: int)
    | DestroySet(mode: int)   // owns the lock
    | DestroyBroadcast        // owns the lock, flag set
    | DestroyUnlock           // owns the lock
    | DestroyLook(i: nat)     // reads thread_type[i]
    | DestroyShoot(i: nat)    // read it nonzero
    | DestroyJoin(i: nat)
    | DestroyFree
    | DestroyDone(freed: bool)
  {
    predicate OwnsLock() { DestroySet? || DestroyBroadcast? || DestroyUnlock? }

    predicate FlagUnset() { DestroyIdle? || DestroyWant? || DestroySet? }

    predicate BroadcastDone() { !FlagUnset() && !DestroyBroadcast? }

    /** The cancel loop has passed slot k, or is at the cancel of slot k. */
    predicate MayHaveShot(k: nat) {
      (DestroyLook? && k < i) || (DestroyShoot? && k < i) || DestroyJoin? || DestroyFree? || DestroyDone?
    }

    predicate HasJoined(k: nat) {
      (DestroyJoin? && k < i) || DestroyFree? || DestroyDone?
    }
  }

  datatype Owner = Free | Worker(w: nat) | Producer(p: nat) | Destroyer

  datatype State = State(
    shared: Shared,
    lock: Owner,
    workers: seq<WorkerPc>,
    cancelled: seq<bool>,        // a cancel was sent to the thread now in this slot
    producers: seq<ProducerPc>,
    deleter: DeleterPc,
    destroyer: DestroyerPc,
    // histories
    accepted: seq<Task>,
    dequeued: seq<Task>,
    completed: multiset<Task>,
    aborted: multiset<Task>,
    succeeded: nat)              // calls of threadpool_add that returned 0

  datatype Event =
    | WorkerStep(i: nat)
    | SpuriousWake(i: nat)
    | CancelTakesEffect(i: nat)
    | CallAdd(p: nat, task: Task)
    | ProducerStep(p: nat, woken: set<nat>)
    | CallDel(func: FuncPtr)
    | DeleterStep
    | CallDestroy(mode: int)
    | DestroyerStep

  /** The state `threadpool_create` leaves: all workers started, none at the lock yet. */
  ghost predicate Init(s: State) {
    && s.shared.Valid() && s.shared.ring.count == 0
    && s.shared.shutdown == ALIVE
    && 0 < |s.workers| == |s.shared.types| == |s.cancelled|
    && s.shared.started == |s.workers|
    && s.lock == Free
    && (forall i | 0 <= i < |s.workers| ::
          s.workers[i] == WantLock && !s.cancelled[i]
          && s.shared.types[i] == 0 && !s.shared.busy[i] && s.shared.funcs[i] == NULL)
    && (forall p | 0 <= p < |s.producers| :: s.producers[p] == Ready)
    && s.deleter == DelIdle && s.destroyer == DestroyIdle
    && s.accepted == s.dequeued == [] && s.completed == s.aborted == multiset{} && s.succeeded == 0
  }

  ghost predicate IsAsleep(s: State, i: nat) {
    i < |s.workers| && s.workers[i].Asleep?
  }

  /** pthread_cond_signal: some nonempty set of sleepers, or none if nobody sleeps. */
  ghost predicate SignalWakes(s: State, woken: set<nat>) {
    && (forall i | i in woken :: IsAsleep(s, i))
    && (woken == {} ==> forall i | 0 <= i < |s.workers| :: !s.workers[i].Asleep?)
  }

  function Wake(workers: seq<WorkerPc>, woken: set<nat>): (r: seq<WorkerPc>)
    ensures |r| == |workers|
  {
    seq(|workers|, i requires 0 <= i < |workers| =>
      if i in woken && workers[i].Asleep? then Woken else workers[i])
  }

  /** pthread_cond_broadcast. */
  function WakeAll(workers: seq<WorkerPc>): (r: seq<WorkerPc>)
    ensures |r| == |workers|
  {
    seq(|workers|, i requires 0 <= i < |workers| => if workers[i].Asleep? then Woken else workers[i])
  }

  /** What the types of the state make indexable; all states of a run satisfy it. */
  ghost predicate Shaped(s: State) {
    && s.shared.Valid()
    && 0 < |s.workers| == |s.shared.types| == |s.cancelled|
  }

  ghost predicate Enabled(s: State, e: Event)
    requires Shaped(s)
  {
    match e
    case WorkerStep(i) =>
      i < |s.workers| &&
      (match s.workers[i]
       case WantLock => s.lock == Free
       case Woken => s.lock == Free
       case Asleep => false
       case Exited => false
       case Cancelled => false
       case Grabbing => 0 < s.shared.ring.count
       case _ => true)
    case SpuriousWake(i) => IsAsleep(s, i)
    case CancelTakesEffect(i) => i < |s.workers| && s.workers[i].Running? && s.cancelled[i]
    case CallAdd(p, task) => p < |s.producers| && s.producers[p].BetweenCalls()
    case ProducerStep(p, woken) =>
      p < |s.producers| &&
      (match s.producers[p]
       case AddWant(_) => s.lock == Free
       case AddSignal => SignalWakes(s, woken)
       case Ready => false
       case AddReturned(_) => false
       case _ => true)
    case CallDel(func) => s.deleter.DelIdle? && s.destroyer.DestroyIdle?
    case DeleterStep =>
      (match s.deleter
       case DelIdle => false
       case DelScan(i, _) => i <= |s.workers|
       case DelJoin(i) => i < |s.workers| && s.workers[i].Gone()
       case _ => s.deleter.i < |s.workers|)
    case CallDestroy(mode) => s.deleter.DelIdle? && s.destroyer.DestroyIdle? && ShutdownMode(mode)
    case DestroyerStep =>
      (match s.destroyer
       case DestroyIdle => false
       case DestroyWant(_) => s.lock == Free
       case DestroyLook(i) => i <= |s.workers|
       case DestroyShoot(i) => i < |s.workers|
       case DestroyJoin(i) => i == |s.workers| || (i < |s.workers| && s.workers[i].Gone())
       case DestroyDone(_) => false
       case _ => true)
  }

  function At(s: State, i: nat, pc: WorkerPc): State
    requires i < |s.workers|
  {
    s.(workers := s.workers[i := pc])
  }

  ghost function ApplyWorker(s: State, i: nat): State
    requires Shaped(s) && Enabled(s, WorkerStep(i))
  {
    match s.workers[i]
    case WantLock => At(s, i, Testing).(lock := Worker(i))
    case Woken => At(s, i, Testing).(lock := Worker(i))
    case Testing =>
      (match Decide(s.shared.shutdown, s.shared.ring.count)
       case SleepOn => At(s, i, Asleep).(lock := Free)
       case LeaveLoop => At(s, i, Leaving)
       case TakeTask => At(s, i, Grabbing))
    case Grabbing =>
      var task := s.shared.ring.cells[s.shared.ring.head];
      At(s, i, Unlocking(task)).(shared := s.shared.Grab(i), dequeued := s.dequeued + [task])
    case Unlocking(task) => At(s, i, SetBusy(task)).(lock := Free)
    case SetBusy(task) => At(s, i, SetFunc(task)).(shared := s.shared.(busy := s.shared.busy[i := true]))
    case SetFunc(task) => At(s, i, Running(task)).(shared := s.shared.(funcs := s.shared.funcs[i := task.func]))
    case Running(task) => At(s, i, ClearBusy).(completed := s.completed + multiset{task})
    case ClearBusy => At(s, i, ClearType).(shared := s.shared.(busy := s.shared.busy[i := false]))
    case ClearType => At(s, i, ClearFunc).(shared := s.shared.(types := s.shared.types[i := 0]))
    case ClearFunc => At(s, i, WantLock).(shared := s.shared.(funcs := s.shared.funcs[i := NULL]))
    case Leaving => At(s, i, LeaveUnlock).(shared := s.shared.(started := s.shared.started - 1))
    case LeaveUnlock => At(s, i, Exited).(lock := Free)
  }

  ghost function ApplyProducer(s: State, p: nat, woken: set<nat>): State
    requires Shaped(s) && Enabled(s, ProducerStep(p, woken))
  {
    match s.producers[p]
    case AddWant(task) => s.(producers := s.producers[p := AddTest(task)], lock := Producer(p))
    case AddTest(task) =>
      var err := s.shared.AddError();
      s.(producers := s.producers[p := if err == 0 then AddStore(task) else AddUnlock(err)])
    case AddStore(task) =>
      s.(producers := s.producers[p := AddSignal], shared := s.shared.Store(task), accepted := s.accepted + [task])
    case AddSignal => s.(producers := s.producers[p := AddUnlock(0)], workers := Wake(s.workers, woken))
    case AddUnlock(err) =>
      s.(producers := s.producers[p := AddReturned(err)], lock := Free,
         succeeded := if err == 0 then s.succeeded + 1 else s.succeeded)
  }

  ghost function ApplyDeleter(s: State): State
    requires Shaped(s) && Enabled(s, DeleterStep)
  {
    match s.deleter
    case DelScan(i, func) =>
      s.(deleter :=
         if i == |s.workers| then DelIdle
         else if s.shared.funcs[i] == func then DelCancel(i)
         else DelScan(i + 1, func))
    case DelCancel(i) => s.(deleter := DelJoin(i), cancelled := s.cancelled[i := true])
    case DelJoin(i) => s.(deleter := DelClearBusy(i))
    case DelClearBusy(i) =>
      s.(deleter := DelClearType(i), shared := s.shared.(busy := s.shared.busy[i := false]))
    case DelClearType(i) =>
      s.(deleter := DelClearFunc(i), shared := s.shared.(types := s.shared.types[i := 0]))
    case DelClearFunc(i) =>
      s.(deleter := DelSpawn(i), shared := s.shared.(funcs := s.shared.funcs[i := NULL]))
    case DelSpawn(i) => At(s, i, WantLock).(deleter := DelIdle, cancelled := s.cancelled[i := false])
  }

  ghost function ApplyDestroyer(s: State): State
    requires Shaped(s) && Enabled(s, DestroyerStep)
  {
    match s.destroyer
    case DestroyWant(mode) => s.(destroyer := DestroySet(mode), lock := Destroyer)
    case DestroySet(mode) => s.(destroyer := DestroyBroadcast, shared := s.shared.(shutdown := mode))
    case DestroyBroadcast => s.(destroyer := DestroyUnlock, workers := WakeAll(s.workers))
    case DestroyUnlock =>
      s.(destroyer := if s.shared.shutdown == IMMEDIATE_SHUTDOWN then DestroyLook(0) else DestroyJoin(0),
         lock := Free)
    case DestroyLook(i) =>
      s.(destroyer :=
         if i == |s.workers| then DestroyJoin(0)
         else if s.shared.types[i] != 0 then DestroyShoot(i)
         else DestroyLook(i + 1))
    case DestroyShoot(i) => s.(destroyer := DestroyLook(i + 1), cancelled := s.cancelled[i := true])
    case DestroyJoin(i) => s.(destroyer := if i == |s.workers| then DestroyFree else DestroyJoin(i + 1))
    case DestroyFree => s.(destroyer := DestroyDone(s.shared.started <= 0))
  }

  ghost function Apply(s: State, e: Event): State
    requires Shaped(s) && Enabled(s, e)
  {
    match e
    case WorkerStep(i) => ApplyWorker(s, i)
    case SpuriousWake(i) => At(s, i, Woken)
    case CancelTakesEffect(i) =>
      At(s, i, Cancelled).(aborted := s.aborted + multiset{s.workers[i].task})
    case CallAdd(p, task) =>
      s.(producers := s.producers[p := if task.func == NULL then AddReturned(THREADPOOL_INVALID) else AddWant(task)])
    case ProducerStep(p, woken) => ApplyProducer(s, p, woken)
    case CallDel(func) => s.(deleter := DelScan(0, func))
    case DeleterStep => ApplyDeleter(s)
    case CallDestroy(mode) => s.(destroyer := DestroyWant(mode))
    case DestroyerStep => ApplyDestroyer(s)
  }
}
