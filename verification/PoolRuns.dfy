/** What holds in every state of every run of the pool. */
module PoolRuns {
  import opened Sums
  import opened PoolState
  import opened PoolProtocol
  import opened PoolInvariant

  ghost predicate ValidRun(s: State, es: seq<Event>)
    decreases |es|
  {
    es == [] || (Shaped(s) && Enabled(s, es[0]) && ValidRun(Apply(s, es[0]), es[1..]))
  }

  /** The state at the end of a run. */
  ghost function Exec(s: State, es: seq<Event>): State
    requires ValidRun(s, es)
    decreases |es|
  {
    if es == [] then s else Exec(Apply(s, es[0]), es[1..])
  }

  lemma {:induction false} RunKeepsInv(s: State, es: seq<Event>)
    requires Inv(s) && ValidRun(s, es)
    ensures Inv(Exec(s, es)) && |Exec(s, es).workers| == |s.workers|
    decreases |es|
  {
    if es != [] {
      StepKeepsInv(s, es[0]);
      RunKeepsInv(Apply(s, es[0]), es[1..]);
    }
  }

  lemma Prepend(s: State, e: Event, es: seq<Event>) returns (longer: seq<Event>)
    requires Shaped(s) && Enabled(s, e) && ValidRun(Apply(s, e), es)
    ensures longer == [e] + es && ValidRun(s, longer) && Exec(s, longer) == Exec(Apply(s, e), es)
  {
    longer := [e] + es;
    assert longer[1..] == es;
  }

  lemma {:induction false} RunConcat(s: State, a: seq<Event>, b: seq<Event>)
    requires ValidRun(s, a) && ValidRun(Exec(s, a), b)
    ensures ValidRun(s, a + b) && Exec(s, a + b) == Exec(Exec(s, a), b)
    decreases |a|
  {
    if a == [] {
      assert a + b == b;
    } else {
      assert (a + b)[1..] == a[1..] + b;
      RunConcat(Apply(s, a[0]), a[1..], b);
    }
  }

  ghost predicate NoNewDel(es: seq<Event>) {
    forall e | e in es :: !e.CallDel?
  }

  /** The pending tasks of a state, oldest first. */
  ghost function Pending(s: State): seq<Task>
    requires Shaped(s)
  {
    s.shared.ring.Contents()
  }

  /** Tasks leave the queue in the order in which they were accepted, none twice and none skipped;
      the queue never holds more than its size. */
  lemma GlobalFifo(s0: State, es: seq<Event>)
    requires Init(s0) && ValidRun(s0, es)
    ensures var s := Exec(s0, es);
            Shaped(s) && s.accepted == s.dequeued + Pending(s) && |Pending(s)| <= |s.shared.ring.cells|
  {
    InitHasInv(s0);
    RunKeepsInv(s0, es);
  }

  /** Every copy of a task that was accepted is pending, in a worker's hands, completed or aborted. */
  lemma Conservation(s0: State, es: seq<Event>, task: Task)
    requires Init(s0) && ValidRun(s0, es)
    ensures var s := Exec(s0, es);
            Shaped(s)
            && multiset(s.accepted)[task]
               == multiset(Pending(s))[task] + Held(s.workers, task) + s.completed[task] + s.aborted[task]
  {
    InitHasInv(s0);
    RunKeepsInv(s0, es);
    var s := Exec(s0, es);
    assert Accounted(s, task);
    assert multiset(s.dequeued + Pending(s)) == multiset(s.dequeued) + multiset(Pending(s));
  }

  /** No lost wakeup: with no critical section in progress, either no worker is asleep on the
      condition variable or every pending task has an awake worker of its own to fetch it. */
  lemma NoLostWakeup(s0: State, es: seq<Event>)
    requires Init(s0) && ValidRun(s0, es) && Exec(s0, es).lock == Free
    ensures var s := Exec(s0, es);
            || (forall i | 0 <= i < |s.workers| :: !s.workers[i].Asleep?)
            || s.shared.ring.count <= Sum(s.workers, AvailableWeight)
  {
    InitHasInv(s0);
    RunKeepsInv(s0, es);
    SumConstant(Exec(s0, es).producers, SignalWeight, 0);
  }

  /** The step of a worker or caller that owns the lock; a signal wakes one sleeper, if there is one. */
  lemma OwnerStep(s: State) returns (e: Event)
    requires Inv(s) && (s.lock.Worker? || s.lock.Producer?)
    ensures Enabled(s, e)
    ensures s.lock.Worker? ==> e == WorkerStep(s.lock.w)
    ensures s.lock.Producer? ==> e.ProducerStep? && e.p == s.lock.p
  {
    if s.lock.Worker? {
      e := WorkerStep(s.lock.w);
    } else if i :| 0 <= i < |s.workers| && s.workers[i].Asleep? {
      e := ProducerStep(s.lock.p, {i});
    } else {
      e := ProducerStep(s.lock.p, {});
    }
  }

  /** Work conserving: in a running pool in which nothing can happen but new calls and spurious wakeups
      no task is pending. */
  lemma QuietMeansEmpty(s: State)
    requires Inv(s) && s.deleter.DelIdle? && s.destroyer.DestroyIdle?
    requires forall e: Event | Enabled(s, e) :: e.CallAdd? || e.CallDel? || e.CallDestroy? || e.SpuriousWake?
    ensures s.shared.ring.count == 0
    ensures forall i | 0 <= i < |s.workers| :: s.workers[i].Asleep?
    ensures forall p | 0 <= p < |s.producers| :: s.producers[p].BetweenCalls()
  {
    if s.lock.Worker? || s.lock.Producer? {
      var e := OwnerStep(s);
    }
    forall i | 0 <= i < |s.workers|
      ensures s.workers[i].Asleep?
    {
      assert Enabled(s, WorkerStep(i)) || s.workers[i].Asleep?;
    }
    forall p | 0 <= p < |s.producers|
      ensures s.producers[p].BetweenCalls()
    {
      assert Enabled(s, ProducerStep(p, {})) || s.producers[p].BetweenCalls();
    }
    SumConstant(s.workers, AvailableWeight, 0);
    SumConstant(s.producers, SignalWeight, 0);
    assert s.workers[0].Asleep?;
  }

  /** The steps the owner of the lock is from giving it back. */
  ghost function OwnerStepsLeft(s: State): nat
    requires Shaped(s) && LockInv(s)
  {
    match s.lock
    case Worker(i) =>
      (match s.workers[i]
       case Testing => 3
       case Grabbing => 2
       case Leaving => 2
       case _ => 1)
    case Producer(p) =>
      (match s.producers[p]
       case AddTest(_) => 4
       case AddStore(_) => 3
       case AddSignal => 2
       case _ => 1)
    case _ => 0
  }

  /** What the owner of the lock leaves alone: del, destroy, cancels, and every thread outside the lock,
      but that sleepers may wake. */
  ghost predicate OnlyOwnerMoves(s: State, s': State) {
    && s'.deleter == s.deleter && s'.destroyer == s.destroyer && s'.cancelled == s.cancelled
    && s'.aborted == s.aborted && s'.shared.shutdown == s.shared.shutdown
    && |s'.workers| == |s.workers| && |s'.producers| == |s.producers|
    && (forall i | 0 <= i < |s.workers| && !s.workers[i].OwnsLock() ::
          s'.workers[i] == s.workers[i] || (s.workers[i].Asleep? && s'.workers[i].Woken?))
    && (forall p | 0 <= p < |s.producers| && !s.producers[p].OwnsLock() :: s'.producers[p] == s.producers[p])
    && (forall i | 0 <= i < |s.workers| && !s.workers[i].Cancelled? :: !s'.workers[i].Cancelled?)
    && s.dequeued <= s'.dequeued
  }

  lemma WorkerApproachesUnlock(s: State, i: nat)
    requires Shaped(s) && LockInv(s) && s.lock == Worker(i) && Enabled(s, WorkerStep(i))
    requires LockInv(ApplyWorker(s, i)) && Shaped(ApplyWorker(s, i))
    ensures var s' := ApplyWorker(s, i);
            OnlyOwnerMoves(s, s') && (s'.lock == Free || s'.lock == s.lock) && OwnerStepsLeft(s') < OwnerStepsLeft(s)
  {
  }

  lemma CallerApproachesUnlock(s: State, p: nat, woken: set<nat>)
    requires Shaped(s) && LockInv(s) && s.lock == Producer(p) && Enabled(s, ProducerStep(p, woken))
    requires LockInv(ApplyProducer(s, p, woken)) && Shaped(ApplyProducer(s, p, woken))
    ensures var s' := ApplyProducer(s, p, woken);
            OnlyOwnerMoves(s, s') && (s'.lock == Free || s'.lock == s.lock) && OwnerStepsLeft(s') < OwnerStepsLeft(s)
  {
  }

  lemma OnlyOwnersMove(s: State, t: State, u: State)
    requires OnlyOwnerMoves(s, t) && OnlyOwnerMoves(t, u) && LockInv(s) && LockInv(t)
    requires t.lock == Free || t.lock == s.lock
    ensures OnlyOwnerMoves(s, u)
  {
    assert forall i | 0 <= i < |s.workers| :: t.workers[i].OwnsLock() ==> s.workers[i].OwnsLock();
    assert forall p | 0 <= p < |s.producers| :: t.producers[p].OwnsLock() ==> s.producers[p].OwnsLock();
  }

  /** One step of the owner. */
  lemma OwnerMovesOn(s: State) returns (e: Event)
    requires Inv(s) && (s.lock.Worker? || s.lock.Producer?)
    ensures Enabled(s, e) && Inv(Apply(s, e)) && OnlyOwnerMoves(s, Apply(s, e))
    ensures e.WorkerStep? || e.ProducerStep?
    ensures e.WorkerStep? ==> e.i < |s.workers| && s.workers[e.i].OwnsLock()
    ensures var s' := Apply(s, e);
            (s'.lock == Free || s'.lock == s.lock) && OwnerStepsLeft(s') < OwnerStepsLeft(s)
  {
    e := OwnerStep(s);
    StepKeepsInv(s, e);
    if s.lock.Worker? {
      WorkerApproachesUnlock(s, s.lock.w);
    } else {
      CallerApproachesUnlock(s, s.lock.p, e.woken);
    }
  }

  lemma OwnersOnly(s: State, t: State)
    requires LockInv(s) && LockInv(t) && (t.lock == Free || t.lock == s.lock) && |t.workers| == |s.workers|
    ensures forall i | 0 <= i < |s.workers| :: t.workers[i].OwnsLock() ==> s.workers[i].OwnsLock()
  {
  }

  /** All events are steps of callers, or of workers that own the lock to begin with. */
  ghost predicate OwnersSteps(s: State, es: seq<Event>) {
    forall e | e in es :: e.ProducerStep? || (e.WorkerStep? && e.i < |s.workers| && s.workers[e.i].OwnsLock())
  }

  lemma MoreOwnersSteps(s: State, t: State, e: Event, es: seq<Event>)
    requires OwnersSteps(t, es) && OwnersSteps(s, [e]) && |t.workers| == |s.workers|
    requires forall i | 0 <= i < |s.workers| :: t.workers[i].OwnsLock() ==> s.workers[i].OwnsLock()
    ensures OwnersSteps(s, [e] + es)
  {
    assert e in [e];
  }

  /** From every state the owner of the lock can bring its critical section to an end. */
  lemma {:induction false} FreeTheLock(s: State) returns (es: seq<Event>)
    requires Inv(s) && s.lock != Destroyer
    ensures ValidRun(s, es) && Exec(s, es).lock == Free && OnlyOwnerMoves(s, Exec(s, es)) && OwnersSteps(s, es)
    decreases OwnerStepsLeft(s)
  {
    if s.lock == Free {
      es := [];
    } else {
      var e := OwnerMovesOn(s);
      var s' := Apply(s, e);
      OwnersOnly(s, s');
      var rest := FreeTheLock(s');
      OnlyOwnersMove(s, s', Exec(s', rest));
      MoreOwnersSteps(s, s', e, rest);
      es := Prepend(s, e, rest);
    }
  }

  /** started is the thread count less the workers that left by the normal path; a worker that
      threadpool_del killed stays counted, dead or respawned. */
  lemma StartedIsExact(s0: State, es: seq<Event>)
    requires Init(s0) && ValidRun(s0, es)
    ensures var s := Exec(s0, es);
            |s.workers| == |s0.workers| && s.shared.started == |s0.workers| - Sum(s.workers, LeftWeight)
  {
    InitHasInv(s0);
    RunKeepsInv(s0, es);
  }

  /** The grab is never reached with an empty queue, nor the store with a full one, and of all threads
      at most one is in a critical section. */
  lemma CriticalSectionsAreSafe(s0: State, es: seq<Event>)
    requires Init(s0) && ValidRun(s0, es)
    ensures var s := Exec(s0, es);
            && (forall i | 0 <= i < |s.workers| && s.workers[i].Grabbing? :: 0 < s.shared.ring.count)
            && (forall p | 0 <= p < |s.producers| && s.producers[p].AddStore? ::
                  s.shared.ring.count < |s.shared.ring.cells|)
            && (forall i, k | 0 <= i < |s.workers| && 0 <= k < |s.workers|
                              && s.workers[i].OwnsLock() && s.workers[k].OwnsLock() :: i == k)
            && (forall p, q | 0 <= p < |s.producers| && 0 <= q < |s.producers|
                              && s.producers[p].OwnsLock() && s.producers[q].OwnsLock() :: p == q)
            && (forall i, p | 0 <= i < |s.workers| && 0 <= p < |s.producers| ::
                  !(s.workers[i].OwnsLock() && s.producers[p].OwnsLock()))
            && (s.destroyer.OwnsLock() ==>
                  && (forall i | 0 <= i < |s.workers| :: !s.workers[i].OwnsLock())
                  && (forall p | 0 <= p < |s.producers| :: !s.producers[p].OwnsLock()))
  {
    InitHasInv(s0);
    RunKeepsInv(s0, es);
  }

  /** threadpool_add tells the truth: with no call under way the calls that returned 0 are as many as the
      accepted tasks, and of a call about to return an error the reason still holds: -3 for a full queue, -4 for a
      shutdown and a queue that is not full. */
  lemma AddAnswersTruly(s0: State, es: seq<Event>)
    requires Init(s0) && ValidRun(s0, es)
    ensures var s := Exec(s0, es);
            && Shaped(s) && (s.lock == Free ==> |s.accepted| == s.succeeded)
            && forall p | 0 <= p < |s.producers| && s.producers[p].AddUnlock? && s.producers[p].err != 0 ::
                 || (s.producers[p].err == -3 && |Pending(s)| == |s.shared.ring.cells|)
                 || (s.producers[p].err == -4 && |Pending(s)| < |s.shared.ring.cells| && s.shared.shutdown != 0)
  {
    InitHasInv(s0);
    RunKeepsInv(s0, es);
    if Exec(s0, es).lock == Free {
      SumConstant(Exec(s0, es).producers, GrantedWeight, 0);
    }
  }

  /** Only the owner of the lock changes the queue, the shutdown flag or the count of started workers. */
  lemma OnlyTheOwnerTouches(s: State, e: Event)
    requires Inv(s) && Enabled(s, e)
    requires var s' := Apply(s, e);
             s'.shared.ring != s.shared.ring || s'.shared.shutdown != s.shared.shutdown
             || s'.shared.started != s.shared.started
    ensures match s.lock
            case Free => false
            case Worker(i) => e == WorkerStep(i)
            case Producer(p) => e.ProducerStep? && e.p == p
            case Destroyer => e == DestroyerStep
  {
  }

  ghost function CancelledWeight(w: WorkerPc): nat { if w.Cancelled? then 1 else 0 }

  /** When threadpool_destroy comes to release the pool, started is the number of cancelled workers, so the
      pool is released exactly if there are none. */
  lemma ReleasedIffNobodyCancelled(s: State)
    requires Inv(s) && s.destroyer.DestroyFree?
    ensures s.shared.started == Sum(s.workers, CancelledWeight)
    ensures Enabled(s, DestroyerStep)
    ensures Apply(s, DestroyerStep).destroyer
            == DestroyDone(forall i | 0 <= i < |s.workers| :: !s.workers[i].Cancelled?)
  {
    forall i | 0 <= i < |s.workers|
      ensures s.workers[i].Gone()
    {
      assert s.destroyer.HasJoined(i);
    }
    CountCancelled(s.workers);
  }

  lemma CountCancelled(ws: seq<WorkerPc>)
    requires forall i | 0 <= i < |ws| :: ws[i].Gone()
    ensures Sum(ws, LeftWeight) + Sum(ws, CancelledWeight) == |ws|
    ensures Sum(ws, CancelledWeight) == 0 <==> forall i | 0 <= i < |ws| :: !ws[i].Cancelled?
  {
    GoneSplits(ws);
    if forall i | 0 <= i < |ws| :: !ws[i].Cancelled? {
      SumConstant(ws, CancelledWeight, 0);
    } else {
      var i :| 0 <= i < |ws| && ws[i].Cancelled?;
      SumAtLeast(ws, i, CancelledWeight);
    }
  }

  lemma {:induction false} GoneSplits(ws: seq<WorkerPc>)
    requires forall i | 0 <= i < |ws| :: ws[i].Gone()
    ensures Sum(ws, LeftWeight) + Sum(ws, CancelledWeight) == |ws|
  {
    if ws != [] {
      GoneSplits(ws[1..]);
    }
  }

  // ---- graceful shutdown ----

  /** The mode of the shutdown that was asked for. */
  ghost function Mode(s: State): int {
    if s.destroyer.DestroyWant? || s.destroyer.DestroySet? then s.destroyer.mode else s.shared.shutdown
  }

  lemma {:induction false} DestroyKeepsItsMode(s: State, es: seq<Event>)
    requires Inv(s) && ValidRun(s, es) && !s.destroyer.DestroyIdle?
    ensures !Exec(s, es).destroyer.DestroyIdle? && Mode(Exec(s, es)) == Mode(s)
    decreases |es|
  {
    if es != [] {
      StepKeepsInv(s, es[0]);
      StepKeepsMode(s, es[0]);
      DestroyKeepsItsMode(Apply(s, es[0]), es[1..]);
    }
  }

  lemma StepKeepsMode(s: State, e: Event)
    requires Shaped(s) && Enabled(s, e) && !s.destroyer.DestroyIdle?
    ensures !Apply(s, e).destroyer.DestroyIdle? && Mode(Apply(s, e)) == Mode(s)
  {
  }

  /** Once a graceful destroy was called nothing is aborted any more. */
  lemma {:induction false} GracefulAbortsNothing(s: State, es: seq<Event>)
    requires Inv(s) && ValidRun(s, es) && !s.destroyer.DestroyIdle? && Mode(s) != IMMEDIATE_SHUTDOWN
    ensures Exec(s, es).aborted == s.aborted
    decreases |es|
  {
    if es != [] {
      StepKeepsInv(s, es[0]);
      StepKeepsMode(s, es[0]);
      assert Apply(s, es[0]).aborted == s.aborted;
      GracefulAbortsNothing(Apply(s, es[0]), es[1..]);
    }
  }

  /** When destroy is done all workers are gone, and what left the queue completed or was aborted. */
  lemma DoneAccounts(s: State)
    requires Inv(s) && s.destroyer.DestroyDone?
    ensures forall i | 0 <= i < |s.workers| :: s.workers[i].Gone()
    ensures multiset(s.dequeued) == s.completed + s.aborted
  {
    forall i | 0 <= i < |s.workers|
      ensures s.workers[i].Gone()
    {
      assert s.destroyer.HasJoined(i);
    }
    forall task: Task
      ensures multiset(s.dequeued)[task] == (s.completed + s.aborted)[task]
    {
      assert Accounted(s, task);
      SumConstant(s.workers, HoldWeight(task), 0);
    }
  }

  ghost predicate JoinsNow(s: State, e: Event) { e.DeleterStep? && s.deleter.DelJoin? }

  /** How often threadpool_del comes through its join in a run, that is, how many dels found their function. */
  ghost function Joins(s: State, es: seq<Event>): nat
    requires ValidRun(s, es)
    decreases |es|
  {
    if es == [] then 0 else (if JoinsNow(s, es[0]) then 1 else 0) + Joins(Apply(s, es[0]), es[1..])
  }

  ghost function DelCalls(es: seq<Event>): nat {
    if es == [] then 0 else (if es[0].CallDel? then 1 else 0) + DelCalls(es[1..])
  }

  /** A cancel of the del in progress that has taken effect and is not yet joined. */
  ghost function Due(s: State): nat
    requires Shaped(s) && JoinInv(s)
  {
    if s.deleter.DelJoin? && s.workers[s.deleter.i].Cancelled? then 1 else 0
  }

  /** Outside an immediate shutdown the tasks aborted in a run are as many as the joins of del in it, counting
      the one under way. */
  lemma {:induction false} AbortsAreJoins(s: State, es: seq<Event>)
    requires Inv(s) && ValidRun(s, es) && Inv(Exec(s, es)) && Exec(s, es).shared.shutdown != IMMEDIATE_SHUTDOWN
    ensures |Exec(s, es).aborted| + Due(s) == |s.aborted| + Joins(s, es) + Due(Exec(s, es))
    decreases |es|
  {
    if s.shared.shutdown == IMMEDIATE_SHUTDOWN {
      ImmediateFreezesQueue(s, es);
    }
    if es != [] {
      StepKeepsInv(s, es[0]);
      AbortIsDue(s, es[0]);
      AbortsAreJoins(Apply(s, es[0]), es[1..]);
    }
  }

  lemma AbortIsDue(s: State, e: Event)
    requires Shaped(s) && StageInv(s) && ShutdownInv(s) && JoinInv(s) && CancelInv(s) && Enabled(s, e)
    requires s.shared.shutdown != IMMEDIATE_SHUTDOWN && Shaped(Apply(s, e)) && JoinInv(Apply(s, e))
    ensures |Apply(s, e).aborted| + Due(s) == |s.aborted| + Due(Apply(s, e)) + (if JoinsNow(s, e) then 1 else 0)
  {
    if e.CancelTakesEffect? {
      assert s.deleter == DelJoin(e.i);
    } else if e.DeleterStep? {
      JoinIsDue(s);
    } else {
      OnlyCancelsAbort(s, e);
    }
  }

  lemma JoinIsDue(s: State)
    requires Shaped(s) && StageInv(s) && ShutdownInv(s) && JoinInv(s) && CancelInv(s) && Enabled(s, DeleterStep)
    requires Shaped(ApplyDeleter(s)) && JoinInv(ApplyDeleter(s))
    ensures ApplyDeleter(s).aborted == s.aborted
    ensures Due(s) == Due(ApplyDeleter(s)) + (if s.deleter.DelJoin? then 1 else 0)
  {
  }

  lemma OnlyCancelsAbort(s: State, e: Event)
    requires Shaped(s) && JoinInv(s) && Enabled(s, e) && !e.CancelTakesEffect? && !e.DeleterStep?
    requires Shaped(Apply(s, e)) && JoinInv(Apply(s, e))
    ensures Apply(s, e).aborted == s.aborted && Due(Apply(s, e)) == Due(s)
  {
  }

  /** A call of del joins at most once. */
  lemma {:induction false} JoinsAreCalled(s: State, es: seq<Event>)
    requires Inv(s) && ValidRun(s, es)
    ensures Joins(s, es) <= DelCalls(es)
                            + (if s.deleter.DelScan? || s.deleter.DelCancel? || s.deleter.DelJoin? then 1 else 0)
    decreases |es|
  {
    if es != [] {
      StepKeepsInv(s, es[0]);
      JoinsAreCalled(Apply(s, es[0]), es[1..]);
    }
  }

  /** When a graceful destroy has joined all workers, on every interleaving: the queue is empty, every accepted
      copy of every task ran to completion exactly once or was aborted, one for each del that found its function
      and none besides, no worker counts as started, and the pool is released. */
  lemma GracefulShutdownDrains(s0: State, es: seq<Event>)
    requires Init(s0) && ValidRun(s0, es)
    requires Exec(s0, es).destroyer.DestroyDone? && Mode(Exec(s0, es)) == GRACEFUL_SHUTDOWN
    ensures var s := Exec(s0, es);
            && Shaped(s) && Pending(s) == [] && s.dequeued == s.accepted
            && multiset(s.accepted) == s.completed + s.aborted
            && |s.aborted| == Joins(s0, es) <= DelCalls(es)
            && (forall i | 0 <= i < |s.workers| :: s.workers[i].Exited?)
            && s.shared.started == 0 && s.destroyer.freed
  {
    InitHasInv(s0);
    RunKeepsInv(s0, es);
    var s := Exec(s0, es);
    DoneAccounts(s);
    SumConstant(s.workers, LeftWeight, 1);
    assert s.workers[0].LeftNormally();
    assert Pending(s) == [];
    AbortsAreJoins(s0, es);
    JoinsAreCalled(s0, es);
  }

  /** So without a del every accepted task has run to completion, each copy exactly once. */
  lemma GracefulShutdownCompletesAll(s0: State, es: seq<Event>)
    requires Init(s0) && ValidRun(s0, es) && NoNewDel(es)
    requires Exec(s0, es).destroyer.DestroyDone? && Mode(Exec(s0, es)) == GRACEFUL_SHUTDOWN
    ensures Exec(s0, es).completed == multiset(Exec(s0, es).accepted)
  {
    GracefulShutdownDrains(s0, es);
    NoDelNoCalls(es);
    var s := Exec(s0, es);
    assert s.aborted == multiset{};
  }

  lemma {:induction false} NoDelNoCalls(es: seq<Event>)
    requires NoNewDel(es)
    ensures DelCalls(es) == 0
  {
    if es != [] {
      assert es[0] in es;
      NoDelNoCalls(es[1..]);
    }
  }

  // ---- immediate shutdown ----

  /** From the step that sets IMMEDIATE_SHUTDOWN on, nothing enters or leaves the queue. */
  lemma {:induction false} ImmediateFreezesQueue(s: State, es: seq<Event>)
    requires Inv(s) && ValidRun(s, es) && s.shared.shutdown == IMMEDIATE_SHUTDOWN
    ensures var t := Exec(s, es);
            t.shared.shutdown == IMMEDIATE_SHUTDOWN && t.shared.ring == s.shared.ring
            && t.accepted == s.accepted && t.dequeued == s.dequeued
    decreases |es|
  {
    if es != [] {
      StepKeepsInv(s, es[0]);
      ImmediateStepFreezes(s, es[0]);
      ImmediateFreezesQueue(Apply(s, es[0]), es[1..]);
    }
  }

  lemma ImmediateStepFreezes(s: State, e: Event)
    requires Shaped(s) && StageInv(s) && ShutdownInv(s) && JoinInv(s) && Enabled(s, e)
    requires s.shared.shutdown == IMMEDIATE_SHUTDOWN
    ensures var t := Apply(s, e);
            t.shared.shutdown == IMMEDIATE_SHUTDOWN && t.shared.ring == s.shared.ring
            && t.accepted == s.accepted && t.dequeued == s.dequeued
  {
  }

  /** Whatever an immediate shutdown aborts is a task of nonzero type. */
  lemma {:induction false} ImmediateAbortsOnlyTyped(s: State, es: seq<Event>, task: Task)
    requires Inv(s) && ValidRun(s, es) && s.shared.shutdown == IMMEDIATE_SHUTDOWN
    ensures task.ftype == 0 ==> Exec(s, es).aborted[task] == s.aborted[task]
    decreases |es|
  {
    if es != [] {
      StepKeepsInv(s, es[0]);
      ImmediateStepFreezes(s, es[0]);
      if es[0].CancelTakesEffect? {
        assert s.workers[es[0].i].task.ftype != 0;
      }
      ImmediateAbortsOnlyTyped(Apply(s, es[0]), es[1..], task);
    }
  }

  /** A worker is shot only while its slot says that it has a task of nonzero type in hand or is
      still clearing up after one. */
  lemma ShotsHitTypedSlots(s: State)
    requires Inv(s) && s.destroyer.DestroyLook? && Enabled(s, DestroyerStep)
    requires Apply(s, DestroyerStep).destroyer.DestroyShoot?
    ensures var w := s.workers[s.destroyer.i];
            || (w.HoldsTask() && w.task.ftype != 0) || w.ClearBusy? || w.ClearType?
  {
    assert SlotFlags(s, s.destroyer.i);
  }

  /** After an immediate shutdown started is the number of cancelled workers, so the pool is released
      exactly if none was cancelled; the tasks that were not started stay the tail of what was
      accepted, and all others completed or were aborted. */
  lemma ImmediateShutdownOutcome(s0: State, es: seq<Event>)
    requires Init(s0) && ValidRun(s0, es)
    requires Exec(s0, es).destroyer.DestroyDone? && Mode(Exec(s0, es)) == IMMEDIATE_SHUTDOWN
    ensures var s := Exec(s0, es);
            && Shaped(s) && s.shared.started == Sum(s.workers, CancelledWeight)
            && (s.destroyer.freed <==> forall i | 0 <= i < |s.workers| :: !s.workers[i].Cancelled?)
            && s.accepted == s.dequeued + Pending(s)
            && multiset(s.dequeued) == s.completed + s.aborted
  {
    InitHasInv(s0);
    RunKeepsInv(s0, es);
    var s := Exec(s0, es);
    DoneAccounts(s);
    CountCancelled(s.workers);
  }
}
