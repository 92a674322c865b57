/** Every shutdown terminates: a measure no step can resist, and a step for as long as anybody is left. */
module PoolShutdown {
  import opened Sums
  import opened PoolState
  import opened PoolProtocol
  import opened PoolInvariant
  import opened PoolRuns

  /** The flag is set and the broadcast is done. */
  ghost predicate Draining(s: State) {
    s.destroyer.BroadcastDone() && s.shared.shutdown != ALIVE
  }

  /** How many steps a worker is from the end, apart from the tasks it may still take. */
  ghost function StepsLeft(w: WorkerPc): nat {
    match w
    case Exited => 0
    case Cancelled => 0
    case LeaveUnlock => 1
    case Leaving => 2
    case Grabbing => 2
    case Testing => 3
    case WantLock => 4
    case Woken => 4
    case Asleep => 5
    case ClearFunc => 5
    case ClearType => 6
    case ClearBusy => 7
    case Running(_) => 8
    case SetFunc(_) => 9
    case SetBusy(_) => 10
    case Unlocking(_) => 11
  }

  ghost function CallStepsLeft(p: ProducerPc): nat {
    match p
    case Ready => 0
    case AddReturned(_) => 0
    case AddUnlock(_) => 1
    case AddSignal => 2
    case AddStore(_) => 3
    case AddTest(_) => 4
    case AddWant(_) => 5
  }

  ghost function DestroyStepsLeft(d: DestroyerPc, n: nat): int {
    match d
    case DestroyDone(_) => 0
    case DestroyFree => 1
    case DestroyJoin(i) => n - i + 2
    case DestroyShoot(i) => n + 2 + 2 * (n - i)
    case DestroyLook(i) => n + 3 + 2 * (n - i)
    case _ => 3 * n + 4
  }

  /** One task still in the queue costs ten worker steps. The callers of threadpool_add do not count. */
  ghost function Measure(s: State): int {
    10 * s.shared.ring.count + Sum(s.workers, StepsLeft) + DestroyStepsLeft(s.destroyer, |s.workers|)
  }

  lemma MeasureBounded(s: State)
    requires Inv(s)
    ensures 0 <= Measure(s)
  {
  }

  lemma DrainingLasts(s: State, e: Event)
    requires Inv(s) && Draining(s) && Enabled(s, e)
    ensures Draining(Apply(s, e))
  {
  }

  ghost predicate OfAddCaller(e: Event) { e.CallAdd? || e.ProducerStep? }

  /** No add touches the measure; every step of a worker, a cancel or the destroyer lowers it. */
  lemma StepLowersMeasure(s: State, e: Event)
    requires Inv(s) && Draining(s) && Enabled(s, e)
    ensures if OfAddCaller(e) then Measure(Apply(s, e)) == Measure(s) else Measure(Apply(s, e)) < Measure(s)
  {
    match e
    case WorkerStep(i) => WorkerLowersMeasure(s, i);
    case SpuriousWake(i) => assert false;
    case CancelTakesEffect(i) => SumUpdate(s.workers, i, Cancelled, StepsLeft);
    case CallAdd(p, task) =>
    case ProducerStep(p, woken) => ProducerKeepsMeasure(s, p, woken);
    case CallDel(_) => assert false;
    case DeleterStep => assert false;
    case CallDestroy(_) => assert false;
    case DestroyerStep => DestroyerLowersMeasure(s);
  }

  lemma WorkerLowersMeasure(s: State, i: nat)
    requires Shaped(s) && ShutdownInv(s) && Draining(s) && Enabled(s, WorkerStep(i))
    ensures Measure(ApplyWorker(s, i)) < Measure(s)
  {
    var pc := WorkerMovesOneSlot(s, i);
    SumUpdate(s.workers, i, pc, StepsLeft);
  }

  /** A call that comes now is refused, and its signal, if it still sends one, finds nobody asleep. */
  lemma ProducerKeepsMeasure(s: State, p: nat, woken: set<nat>)
    requires Shaped(s) && StageInv(s) && ShutdownInv(s) && Draining(s) && Enabled(s, ProducerStep(p, woken))
    ensures Measure(ApplyProducer(s, p, woken)) == Measure(s)
  {
    var s' := ApplyProducer(s, p, woken);
    assert s'.workers == s.workers;
  }

  lemma DestroyerLowersMeasure(s: State)
    requires Shaped(s) && ShutdownInv(s) && JoinInv(s) && Draining(s) && Enabled(s, DestroyerStep)
    ensures Measure(ApplyDestroyer(s)) < Measure(s)
  {
  }

  /** The steps of a run that are not those of a caller of threadpool_add. */
  ghost function PoolSteps(es: seq<Event>): nat {
    if es == [] then 0 else (if OfAddCaller(es[0]) then 0 else 1) + PoolSteps(es[1..])
  }

  /** Whatever the callers of threadpool_add do, workers, cancels and the destroyer together make no more
      steps in a draining pool than the measure it starts with. Nobody sleeps anywhere along the run. */
  lemma {:induction false} ShutdownTerminates(s: State, es: seq<Event>)
    requires Inv(s) && Draining(s) && ValidRun(s, es)
    ensures Inv(Exec(s, es)) && Draining(Exec(s, es))
    ensures PoolSteps(es) + Measure(Exec(s, es)) <= Measure(s)
    ensures PoolSteps(es) <= Measure(s)
    ensures forall i | 0 <= i < |Exec(s, es).workers| :: !Exec(s, es).workers[i].Asleep?
    decreases |es|
  {
    MeasureBounded(s);
    if es != [] {
      StepKeepsInv(s, es[0]);
      DrainingLasts(s, es[0]);
      StepLowersMeasure(s, es[0]);
      ShutdownTerminates(Apply(s, es[0]), es[1..]);
    }
  }

  // ---- the callers of threadpool_add ----

  ghost function Calls(es: seq<Event>): nat {
    if es == [] then 0 else (if es[0].CallAdd? then 1 else 0) + Calls(es[1..])
  }

  /** A call in flight is at most five steps from its return, and only its own steps matter to it. */
  lemma StepOfCalls(s: State, e: Event)
    requires Shaped(s) && Enabled(s, e)
    ensures var before, after := Sum(s.producers, CallStepsLeft), Sum(Apply(s, e).producers, CallStepsLeft);
            && (e.ProducerStep? ==> after < before)
            && (e.CallAdd? ==> after <= before + 5)
            && (!OfAddCaller(e) ==> after == before)
  {
    match e
    case CallAdd(p, task) => SumUpdate(s.producers, p, Apply(s, e).producers[p], CallStepsLeft);
    case ProducerStep(p, woken) => SumUpdate(s.producers, p, ApplyProducer(s, p, woken).producers[p], CallStepsLeft);
    case _ =>
  }

  /** So a whole draining run is bounded by its start and six steps for each new call. */
  lemma {:induction false} DrainingRunIsBounded(s: State, es: seq<Event>)
    requires Inv(s) && Draining(s) && ValidRun(s, es)
    ensures |es| <= PoolSteps(es) + Sum(s.producers, CallStepsLeft) + 6 * Calls(es)
    ensures |es| <= Measure(s) + Sum(s.producers, CallStepsLeft) + 6 * Calls(es)
    decreases |es|
  {
    ShutdownTerminates(s, es);
    if es != [] {
      StepKeepsInv(s, es[0]);
      DrainingLasts(s, es[0]);
      StepOfCalls(s, es[0]);
      DrainingRunIsBounded(Apply(s, es[0]), es[1..]);
    }
  }

  // ---- progress ----

  /** While the destroyer is not done some step other than a new call is possible. */
  lemma SomebodyCanMove(s: State) returns (e: Event)
    requires Inv(s) && Draining(s) && !s.destroyer.DestroyDone?
    ensures Enabled(s, e) && !e.CallAdd?
  {
    match s.lock
    case Worker(i) => e := WorkerStep(i);
    case Producer(p) => e := OwnerStep(s);
    case Destroyer => e := DestroyerStep;
    case Free =>
      if i :| 0 <= i < |s.workers| && !s.workers[i].Gone() {
        e := WorkerStep(i);
      } else {
        e := DestroyerStep;
      }
  }

  /** So every run of a draining pool can be continued until threadpool_destroy returns, and by
      ShutdownTerminates its workers and the destroyer cannot go on forever without that. */
  lemma {:induction false} DestroyReturns(s: State) returns (es: seq<Event>)
    requires Inv(s) && Draining(s)
    ensures ValidRun(s, es) && Calls(es) == 0 && Exec(s, es).destroyer.DestroyDone?
    ensures Mode(Exec(s, es)) == s.shared.shutdown
    decreases Measure(s), Sum(s.producers, CallStepsLeft)
  {
    MeasureBounded(s);
    if s.destroyer.DestroyDone? {
      es := [];
    } else {
      var e := SomebodyCanMove(s);
      StepKeepsInv(s, e);
      DrainingLasts(s, e);
      StepLowersMeasure(s, e);
      StepOfCalls(s, e);
      StepKeepsMode(s, e);
      MeasureBounded(Apply(s, e));
      var rest := DestroyReturns(Apply(s, e));
      es := [e] + rest;
    }
  }

  /** The header calls mode 0 the default; the flag then stays 0, no worker ever leaves, and the join
      of the first worker never returns, whatever happens. */
  lemma DestroyAliveNeverReturns(s: State, es: seq<Event>)
    requires Inv(s) && ValidRun(s, es) && !s.destroyer.DestroyIdle? && Mode(s) == ALIVE
    ensures !Exec(s, es).destroyer.DestroyDone?
  {
    RunKeepsInv(s, es);
    DestroyKeepsItsMode(s, es);
    var t := Exec(s, es);
    if t.destroyer.DestroyDone? {
      assert t.destroyer.HasJoined(0);
      assert false;
    }
  }

  /** Wherever threadpool_destroy is called, it can return if and only if its mode is one of the two
      shutdown modes. */
  lemma DestroyReturnsIffShutdownMode(s: State, mode: int)
    requires Inv(s) && Enabled(s, CallDestroy(mode))
    ensures (exists es :: ValidRun(s, [CallDestroy(mode)] + es)
                          && Exec(s, [CallDestroy(mode)] + es).destroyer.DestroyDone?)
            <==> mode != ALIVE
  {
    var call := CallDestroy(mode);
    StepKeepsInv(s, call);
    var called := Apply(s, call);
    if mode == ALIVE {
      forall es | ValidRun(s, [call] + es)
        ensures !Exec(s, [call] + es).destroyer.DestroyDone?
      {
        assert ([call] + es)[1..] == es;
        DestroyAliveNeverReturns(called, es);
      }
    } else {
      var freeing := FreeTheLock(called);
      RunKeepsInv(called, freeing);
      var rest := DestroyFromFreeLock(Exec(called, freeing), mode);
      RunConcat(called, freeing, rest);
      var es := Prepend(s, call, freeing + rest);
    }
  }

  lemma DestroyFromFreeLock(s: State, mode: int) returns (es: seq<Event>)
    requires Inv(s) && s.lock == Free && s.destroyer == DestroyWant(mode) && mode != ALIVE
    ensures ValidRun(s, es) && Exec(s, es).destroyer.DestroyDone?
  {
    var s1 := Apply(s, DestroyerStep);
    StepKeepsInv(s, DestroyerStep);
    var s2 := Apply(s1, DestroyerStep);
    StepKeepsInv(s1, DestroyerStep);
    var s3 := Apply(s2, DestroyerStep);
    StepKeepsInv(s2, DestroyerStep);
    es := DestroyReturns(s3);
    es := Prepend(s2, DestroyerStep, es);
    es := Prepend(s1, DestroyerStep, es);
    es := Prepend(s, DestroyerStep, es);
  }
}
