/** Whom an immediate shutdown cancels: exactly the workers whose type it reads as nonzero. */
module PoolCancel {
  import opened PoolState
  import opened PoolProtocol
  import opened PoolInvariant
  import opened PoolRuns

  /** The cancel loop is about to begin. */
  ghost predicate AboutToShoot(s: State) {
    s.destroyer.DestroyUnlock? && s.shared.shutdown == IMMEDIATE_SHUTDOWN
  }

  /** The entry of thread_type that the cancel loop reads in a step, if the step is one of the loop. */
  ghost function See(s: State, e: Event): seq<int> {
    if e.DestroyerStep? && s.destroyer.DestroyLook? && s.destroyer.i < |s.shared.types|
    then [s.shared.types[s.destroyer.i]] else []
  }

  /** The entries that the loop has read by the end of a run, in order, if it had read `seen` before. */
  ghost function Seen(s: State, es: seq<Event>, seen: seq<int>): seq<int>
    requires ValidRun(s, es)
    decreases |es|
  {
    if es == [] then seen else Seen(Apply(s, es[0]), es[1..], seen + See(s, es[0]))
  }

  /** The loop has read all slots it has passed, and the cancels are those it read as nonzero. */
  ghost predicate ShotAsSeen(s: State, seen: seq<int>) {
    && s.shared.shutdown == IMMEDIATE_SHUTDOWN && |s.cancelled| == |s.workers|
    && s.destroyer.BroadcastDone()
    && |seen| == (match s.destroyer
                  case DestroyUnlock => 0
                  case DestroyLook(i) => i
                  case DestroyShoot(i) => i + 1
                  case _ => |s.workers|)
    && (s.destroyer.DestroyShoot? ==> seen[s.destroyer.i] != 0)
    && forall i | 0 <= i < |s.workers| ::
         s.cancelled[i] <==> s.destroyer.MayHaveShot(i) && i < |seen| && seen[i] != 0
  }

  lemma StepShotAsSeen(s: State, e: Event, seen: seq<int>)
    requires Shaped(s) && ShutdownInv(s) && JoinInv(s) && Enabled(s, e) && ShotAsSeen(s, seen)
    ensures ShotAsSeen(Apply(s, e), seen + See(s, e))
  {
    if e.DestroyerStep? {
      LoopShotAsSeen(s, seen);
    } else {
      OnlyDestroyShoots(s, e);
      assert seen + See(s, e) == seen;
    }
  }

  lemma LoopShotAsSeen(s: State, seen: seq<int>)
    requires Shaped(s) && JoinInv(s) && Enabled(s, DestroyerStep) && ShotAsSeen(s, seen)
    ensures ShotAsSeen(ApplyDestroyer(s), seen + See(s, DestroyerStep))
  {
    if See(s, DestroyerStep) == [] {
      assert seen + See(s, DestroyerStep) == seen;
    }
  }

  lemma OnlyDestroyShoots(s: State, e: Event)
    requires Shaped(s) && ShutdownInv(s) && JoinInv(s) && Enabled(s, e)
    requires s.destroyer.BroadcastDone() && !e.DestroyerStep?
    ensures var t := Apply(s, e);
            && t.destroyer == s.destroyer && t.cancelled == s.cancelled && t.shared.shutdown == s.shared.shutdown
            && |t.workers| == |s.workers|
  {
  }

  lemma {:induction false} RunShotAsSeen(s: State, es: seq<Event>, seen: seq<int>)
    requires Inv(s) && ValidRun(s, es) && ShotAsSeen(s, seen)
    ensures ShotAsSeen(Exec(s, es), Seen(s, es, seen))
    decreases |es|
  {
    if es != [] {
      StepKeepsInv(s, es[0]);
      StepShotAsSeen(s, es[0], seen);
      RunShotAsSeen(Apply(s, es[0]), es[1..], seen + See(s, es[0]));
    }
  }

  /** When the cancel loop is through it has read every slot once, in order, and has cancelled exactly the
      workers whose type it read as nonzero. */
  lemma CancelledIffSeenTyped(s: State, es: seq<Event>)
    requires Inv(s) && AboutToShoot(s) && ValidRun(s, es)
    ensures var t := Exec(s, es); var seen := Seen(s, es, []);
            && |t.workers| == |s.workers| == |t.cancelled|
            && (t.destroyer.DestroyJoin? || t.destroyer.DestroyFree? || t.destroyer.DestroyDone? ==>
                  && |seen| == |s.workers|
                  && forall i | 0 <= i < |s.workers| :: t.cancelled[i] <==> seen[i] != 0)
  {
    RunKeepsInv(s, es);
    RunShotAsSeen(s, es, []);
  }

  // ---- a task that does not end by itself ----

  /** The task that worker i has in hand never returns. */
  ghost predicate NeverReturns(s: State, es: seq<Event>, i: nat)
    requires ValidRun(s, es)
    decreases |es|
  {
    || es == []
    || (!(es[0] == WorkerStep(i) && i < |s.workers| && s.workers[i].Running?)
        && NeverReturns(Apply(s, es[0]), es[1..], i))
  }

  /** Worker i has the task in hand, with a cancel sent if the loop has passed it, or the task is aborted. */
  ghost predicate Doomed(s: State, i: nat, task: Task, before: multiset<Task>) {
    && i < |s.workers| == |s.cancelled|
    && s.shared.shutdown == IMMEDIATE_SHUTDOWN && s.destroyer.BroadcastDone()
    && (s.destroyer.MayHaveShot(i) ==> s.cancelled[i])
    && (if s.workers[i].HoldsTask() then s.workers[i].task == task && before <= s.aborted
        else s.workers[i].Cancelled? && before + multiset{task} <= s.aborted)
  }

  lemma StepKeepsDoom(s: State, e: Event, i: nat, task: Task, before: multiset<Task>)
    requires Inv(s) && Enabled(s, e) && Doomed(s, i, task, before) && task.ftype != 0
    requires !(e == WorkerStep(i) && s.workers[i].Running?)
    ensures Doomed(Apply(s, e), i, task, before)
  {
    assert SlotFlags(s, i);
    match e
    case WorkerStep(k) => WorkerKeepsDoom(s, k, i, task, before);
    case DestroyerStep => LoopKeepsDoom(s, i, task, before);
    case _ =>
  }

  lemma WorkerKeepsDoom(s: State, k: nat, i: nat, task: Task, before: multiset<Task>)
    requires Shaped(s) && Enabled(s, WorkerStep(k)) && Doomed(s, i, task, before)
    requires !(k == i && s.workers[i].Running?)
    ensures Doomed(ApplyWorker(s, k), i, task, before)
  {
  }

  lemma LoopKeepsDoom(s: State, i: nat, task: Task, before: multiset<Task>)
    requires Shaped(s) && JoinInv(s) && Enabled(s, DestroyerStep) && Doomed(s, i, task, before)
    requires SlotFlags(s, i) && task.ftype != 0
    requires s.workers[i].Cancelled? ==> s.cancelled[i]
    ensures Doomed(ApplyDestroyer(s), i, task, before)
  {
  }

  lemma {:induction false} RunKeepsDoom(s: State, es: seq<Event>, i: nat, task: Task, before: multiset<Task>)
    requires Inv(s) && ValidRun(s, es) && NeverReturns(s, es, i) && Doomed(s, i, task, before) && task.ftype != 0
    ensures Inv(Exec(s, es)) && Doomed(Exec(s, es), i, task, before)
    decreases |es|
  {
    if es != [] {
      StepKeepsInv(s, es[0]);
      StepKeepsDoom(s, es[0], i, task, before);
      RunKeepsDoom(Apply(s, es[0]), es[1..], i, task, before);
    }
  }

  /** A task of nonzero type that is in a worker's hands when the cancel loop begins and does not end by itself:
      its worker is cancelled as soon as the loop has passed it; and when destroy is done the task is aborted and
      the pool is not released. */
  lemma TypedTaskIsShot(s: State, es: seq<Event>, i: nat)
    requires Inv(s) && AboutToShoot(s) && i < |s.workers| && s.workers[i].HoldsTask()
    requires s.workers[i].task.ftype != 0 && ValidRun(s, es) && NeverReturns(s, es, i)
    ensures var t := Exec(s, es); var task := s.workers[i].task;
            && i < |t.workers| && i < |t.cancelled|
            && (t.destroyer.MayHaveShot(i) ==> t.cancelled[i])
            && (t.destroyer.DestroyDone? ==>
                  t.workers[i].Cancelled? && s.aborted + multiset{task} <= t.aborted && !t.destroyer.freed)
  {
    RunKeepsDoom(s, es, i, s.workers[i].task, s.aborted);
    var t := Exec(s, es);
    if t.destroyer.DestroyDone? {
      DoneAccounts(t);
      CountCancelled(t.workers);
    }
  }
}
