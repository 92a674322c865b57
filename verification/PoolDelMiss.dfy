/** No check before the call can make threadpool_del safe: from every state in which it is about to cancel a
    running worker some continuation aborts a task of another function. */
module PoolDelMiss {
  import opened PoolState
  import opened PoolProtocol
  import opened PoolInvariant
  import opened PoolRuns

  /** The worker's next step takes the lock. */
  ghost predicate AtLock(w: WorkerPc) { w.WantLock? || w.Woken? }

  /** Nothing but the queue, one worker and one caller has changed. */
  ghost predicate Aside(s: State, s': State) {
    && s'.deleter == s.deleter && s'.destroyer == s.destroyer && s'.cancelled == s.cancelled
    && s'.aborted == s.aborted && s'.shared.shutdown == s.shared.shutdown
    && |s'.workers| == |s.workers| && |s'.producers| == |s.producers|
  }

  /** One step of a worker outside the lock. */
  lemma StepOutsideLock(s: State, i: nat) returns (s': State)
    requires Inv(s) && i < |s.workers|
    requires var w := s.workers[i];
             w.SetBusy? || w.SetFunc? || w.Running? || w.ClearBusy? || w.ClearType? || w.ClearFunc?
    ensures Enabled(s, WorkerStep(i)) && s' == Apply(s, WorkerStep(i)) && Inv(s')
    ensures Aside(s, s') && s'.lock == s.lock && s'.producers == s.producers && s'.shared.ring == s.shared.ring
    ensures s'.workers[i] == match s.workers[i]
                             case SetBusy(t) => SetFunc(t)
                             case SetFunc(t) => Running(t)
                             case Running(_) => ClearBusy
                             case ClearBusy => ClearType
                             case ClearType => ClearFunc
                             case _ => WantLock
  {
    StepKeepsInv(s, WorkerStep(i));
    s' := Apply(s, WorkerStep(i));
  }

  /** A worker goes on until it is back at the lock, or inside its task body. */
  lemma {:induction false} GoOn(s: State, i: nat, home: bool) returns (es: seq<Event>)
    requires Inv(s) && i < |s.workers|
    requires var w := s.workers[i];
             if home then w.Running? || w.ClearBusy? || w.ClearType? || w.ClearFunc? || w.WantLock?
             else w.SetBusy? || w.SetFunc? || w.Running?
    ensures ValidRun(s, es) && NoNewDel(es)
    ensures var s' := Exec(s, es);
            && Inv(s') && Aside(s, s') && s'.lock == s.lock && s'.producers == s.producers
            && s'.shared.ring == s.shared.ring
            && s'.workers[i] == if home then WantLock else Running(s.workers[i].task)
    decreases match s.workers[i]
              case SetBusy(_) => 6
              case SetFunc(_) => 5
              case Running(_) => 4
              case ClearBusy => 3
              case ClearType => 2
              case ClearFunc => 1
              case _ => 0
  {
    if s.workers[i] == WantLock || (!home && s.workers[i].Running?) {
      es := [];
    } else {
      var s' := StepOutsideLock(s, i);
      var rest := GoOn(s', i, home);
      es := Prepend(s, WorkerStep(i), rest);
    }
  }

  /** A worker at the lock takes the oldest task and gets as far as its body. */
  lemma TakeOldest(s: State, i: nat) returns (es: seq<Event>)
    requires Inv(s) && i < |s.workers| && AtLock(s.workers[i]) && s.lock == Free
    requires s.shared.shutdown == ALIVE && 0 < s.shared.ring.count
    ensures ValidRun(s, es) && NoNewDel(es)
    ensures var s' := Exec(s, es);
            && Inv(s') && Aside(s, s') && s'.lock == Free && s'.producers == s.producers
            && s'.shared.ring == s.shared.ring.Pop()
            && s'.workers[i] == Running(s.shared.ring.cells[s.shared.ring.head])
  {
    var e := WorkerStep(i);
    StepKeepsInv(s, e);
    es := TestAndGo(Apply(s, e), i);
    es := Prepend(s, e, es);
  }

  lemma TestAndGo(s: State, i: nat) returns (es: seq<Event>)
    requires Inv(s) && i < |s.workers| && s.workers[i] == Testing && s.lock == Worker(i)
    requires s.shared.shutdown == ALIVE && 0 < s.shared.ring.count
    ensures ValidRun(s, es) && NoNewDel(es)
    ensures var s' := Exec(s, es);
            && Inv(s') && Aside(s, s') && s'.lock == Free && s'.producers == s.producers
            && s'.shared.ring == s.shared.ring.Pop()
            && s'.workers[i] == Running(s.shared.ring.cells[s.shared.ring.head])
  {
    var e := WorkerStep(i);
    StepKeepsInv(s, e);
    es := GrabAndGo(Apply(s, e), i);
    es := Prepend(s, e, es);
  }

  lemma GrabAndGo(s: State, i: nat) returns (es: seq<Event>)
    requires Inv(s) && i < |s.workers| && s.workers[i] == Grabbing && s.lock == Worker(i) && 0 < s.shared.ring.count
    ensures ValidRun(s, es) && NoNewDel(es)
    ensures var s' := Exec(s, es);
            && Inv(s') && Aside(s, s') && s'.lock == Free && s'.producers == s.producers
            && s'.shared.ring == s.shared.ring.Pop()
            && s'.workers[i] == Running(s.shared.ring.cells[s.shared.ring.head])
  {
    var e := WorkerStep(i);
    StepKeepsInv(s, e);
    es := UnlockAndGo(Apply(s, e), i);
    es := Prepend(s, e, es);
  }

  lemma UnlockAndGo(s: State, i: nat) returns (es: seq<Event>)
    requires Inv(s) && i < |s.workers| && s.workers[i].Unlocking? && s.lock == Worker(i)
    ensures ValidRun(s, es) && NoNewDel(es)
    ensures var s' := Exec(s, es);
            && Inv(s') && Aside(s, s') && s'.lock == Free && s'.producers == s.producers
            && s'.shared.ring == s.shared.ring && s'.workers[i] == Running(s.workers[i].task)
  {
    var e := WorkerStep(i);
    StepKeepsInv(s, e);
    es := GoOn(Apply(s, e), i, false);
    es := Prepend(s, e, es);
  }

  /** A caller brings its task into an empty queue; a worker that is not asleep does not notice. */
  lemma AddToEmpty(s: State, p: nat, i: nat) returns (es: seq<Event>)
    requires Inv(s) && p < |s.producers| && s.producers[p].AddWant? && s.lock == Free
    requires s.shared.shutdown == ALIVE && s.shared.ring.count == 0
    requires i < |s.workers| && AtLock(s.workers[i])
    ensures ValidRun(s, es) && NoNewDel(es)
    ensures var s' := Exec(s, es);
            && Inv(s') && Aside(s, s') && s'.lock == Free && s'.producers[p] == AddReturned(0)
            && s'.workers[i] == s.workers[i] && s'.shared.ring.count == 1
            && s'.shared.ring.cells[s'.shared.ring.head] == s.producers[p].task
  {
    var e := ProducerStep(p, {});
    StepKeepsInv(s, e);
    es := TestAndReturn(Apply(s, e), p, i);
    es := Prepend(s, e, es);
  }

  lemma TestAndReturn(s: State, p: nat, i: nat) returns (es: seq<Event>)
    requires Inv(s) && p < |s.producers| && s.producers[p].AddTest? && s.lock == Producer(p)
    requires s.shared.shutdown == ALIVE && s.shared.ring.count == 0
    requires i < |s.workers| && AtLock(s.workers[i])
    ensures ValidRun(s, es) && NoNewDel(es)
    ensures var s' := Exec(s, es);
            && Inv(s') && Aside(s, s') && s'.lock == Free && s'.producers[p] == AddReturned(0)
            && s'.workers[i] == s.workers[i] && s'.shared.ring.count == 1
            && s'.shared.ring.cells[s'.shared.ring.head] == s.producers[p].task
  {
    var e := ProducerStep(p, {});
    StepKeepsInv(s, e);
    es := StoreAndReturn(Apply(s, e), p, i);
    es := Prepend(s, e, es);
  }

  lemma StoreAndReturn(s: State, p: nat, i: nat) returns (es: seq<Event>)
    requires Inv(s) && p < |s.producers| && s.producers[p].AddStore? && s.lock == Producer(p)
    requires i < |s.workers| && AtLock(s.workers[i]) && s.shared.ring.count == 0
    ensures ValidRun(s, es) && NoNewDel(es)
    ensures var s' := Exec(s, es);
            && Inv(s') && Aside(s, s') && s'.lock == Free && s'.producers[p] == AddReturned(0)
            && s'.workers[i] == s.workers[i] && s'.shared.ring.count == 1
            && s'.shared.ring.cells[s'.shared.ring.head] == s.producers[p].task
  {
    var e := ProducerStep(p, {});
    StepKeepsInv(s, e);
    es := SignalAndReturn(Apply(s, e), p, i);
    es := Prepend(s, e, es);
  }

  lemma SignalAndReturn(s: State, p: nat, i: nat) returns (es: seq<Event>)
    requires Inv(s) && p < |s.producers| && s.producers[p].AddSignal? && s.lock == Producer(p)
    requires i < |s.workers| && AtLock(s.workers[i])
    ensures ValidRun(s, es) && NoNewDel(es)
    ensures var s' := Exec(s, es);
            && Inv(s') && Aside(s, s') && s'.lock == Free && s'.producers[p] == AddReturned(0)
            && s'.workers[i] == s.workers[i] && s'.shared == s.shared
  {
    var e := OwnerStep(s);
    StepKeepsInv(s, e);
    es := UnlockAndReturn(Apply(s, e), p, i);
    es := Prepend(s, e, es);
  }

  lemma UnlockAndReturn(s: State, p: nat, i: nat) returns (es: seq<Event>)
    requires Inv(s) && p < |s.producers| && s.producers[p] == AddUnlock(0) && s.lock == Producer(p)
    requires i < |s.workers| && AtLock(s.workers[i])
    ensures ValidRun(s, es) && NoNewDel(es)
    ensures var s' := Exec(s, es);
            && Inv(s') && Aside(s, s') && s'.lock == Free && s'.producers[p] == AddReturned(0)
            && s'.workers == s.workers && s'.shared == s.shared
  {
    var e := ProducerStep(p, {});
    StepKeepsInv(s, e);
    es := Prepend(s, e, []);
  }

  /** The cancel of slot i is pending, and the worker there is at the lock, between two tasks. */
  ghost predicate CancelIsLate(s: State, i: nat) {
    && Inv(s) && s.lock == Free && s.deleter == DelJoin(i) && i < |s.workers|
    && s.cancelled[i] && AtLock(s.workers[i])
  }

  /** The oldest task is not one of `func`: it is taken, and aborted. */
  lemma AbortOldest(s: State, i: nat, func: FuncPtr) returns (es: seq<Event>, x: Task)
    requires CancelIsLate(s, i) && 0 < s.shared.ring.count
    requires s.shared.ring.cells[s.shared.ring.head].func != func
    ensures ValidRun(s, es) && NoNewDel(es) && x.func != func
    ensures Exec(s, es).deleter == DelClearBusy(i) && Exec(s, es).aborted == s.aborted + multiset{x}
  {
    var take := TakeOldest(s, i);
    var t := Exec(s, take);
    x := t.workers[i].task;
    var rest := AbortAndJoin(t, i);
    RunConcat(s, take, rest);
    es := take + rest;
  }

  lemma AbortAndJoin(s: State, i: nat) returns (es: seq<Event>)
    requires Inv(s) && s.deleter == DelJoin(i) && i < |s.workers| && s.cancelled[i] && s.workers[i].Running?
    ensures ValidRun(s, es) && NoNewDel(es)
    ensures Exec(s, es).deleter == DelClearBusy(i)
    ensures Exec(s, es).aborted == s.aborted + multiset{s.workers[i].task}
  {
    var e := CancelTakesEffect(i);
    StepKeepsInv(s, e);
    es := Prepend(Apply(s, e), DeleterStep, []);
    es := Prepend(s, e, es);
  }

  /** The oldest task is taken and run to its end. */
  lemma RunOldest(s: State, i: nat) returns (es: seq<Event>)
    requires CancelIsLate(s, i) && s.shared.shutdown == ALIVE && 0 < s.shared.ring.count
    ensures ValidRun(s, es) && NoNewDel(es)
    ensures var s' := Exec(s, es);
            CancelIsLate(s', i) && Aside(s, s') && s'.producers == s.producers && s'.shared.ring == s.shared.ring.Pop()
  {
    es := TakeOldest(s, i);
    var back := GoOn(Exec(s, es), i, true);
    RunConcat(s, es, back);
    es := es + back;
  }

  /** A caller brings a task of another function into the empty queue, and that is the one aborted. */
  lemma BringAnother(s: State, i: nat, p: nat, func: FuncPtr) returns (es: seq<Event>, x: Task)
    requires CancelIsLate(s, i) && s.shared.shutdown == ALIVE && s.shared.ring.count == 0
    requires p < |s.producers| && s.producers[p].BetweenCalls()
    ensures ValidRun(s, es) && NoNewDel(es) && x.func != func
    ensures Exec(s, es).deleter == DelClearBusy(i) && Exec(s, es).aborted == s.aborted + multiset{x}
  {
    var call := CallAdd(p, Task(func + 1, 0, 0));
    StepKeepsInv(s, call);
    var called := Apply(s, call);
    es := AddToEmpty(called, p, i);
    var rest;
    rest, x := AbortOldest(Exec(called, es), i, func);
    RunConcat(called, es, rest);
    es := Prepend(s, call, es + rest);
  }

  /** Tasks of `func` in the queue, and one that a caller is bringing, are run to their end; then the caller
      brings one of another function. */
  lemma {:induction false} LateCancelHitsAnother(s: State, i: nat, p: nat, func: FuncPtr)
    returns (es: seq<Event>, x: Task)
    requires CancelIsLate(s, i) && p < |s.producers|
    ensures ValidRun(s, es) && NoNewDel(es) && x.func != func
    ensures Exec(s, es).deleter == DelClearBusy(i) && Exec(s, es).aborted == s.aborted + multiset{x}
    decreases s.producers[p].AddWant?, s.shared.ring.count
  {
    var rest: seq<Event>;
    if 0 < s.shared.ring.count && s.shared.ring.cells[s.shared.ring.head].func != func {
      es, x := AbortOldest(s, i, func);
    } else if 0 < s.shared.ring.count {
      es := RunOldest(s, i);
      rest, x := LateCancelHitsAnother(Exec(s, es), i, p, func);
      RunConcat(s, es, rest);
      es := es + rest;
    } else if s.producers[p].AddWant? {
      es := AddToEmpty(s, p, i);
      rest, x := LateCancelHitsAnother(Exec(s, es), i, p, func);
      RunConcat(s, es, rest);
      es := es + rest;
    } else {
      es, x := BringAnother(s, i, p, func);
    }
  }

  /** Wherever a del is about to cancel a worker inside a task body, and whatever function it was asked to
      stop: if there is anybody to call threadpool_add, the run can go on, with no other del, so that the
      task it aborts is one of another function. */
  lemma DelCanHitAnother(s: State, i: nat, p: nat, func: FuncPtr) returns (es: seq<Event>, x: Task)
    requires Inv(s) && s.deleter == DelCancel(i) && i < |s.workers| && s.workers[i].Running?
    requires p < |s.producers|
    ensures ValidRun(s, es) && NoNewDel(es) && x.func != func
    ensures Exec(s, es).deleter == DelClearBusy(i) && Exec(s, es).aborted == s.aborted + multiset{x}
  {
    var freeing := FreeTheLock(s);
    RunKeepsInv(s, freeing);
    var rest;
    rest, x := CancelAfterReturn(Exec(s, freeing), i, p, func);
    RunConcat(s, freeing, rest);
    es := freeing + rest;
  }

  lemma CancelAfterReturn(s: State, i: nat, p: nat, func: FuncPtr) returns (es: seq<Event>, x: Task)
    requires Inv(s) && s.deleter == DelCancel(i) && i < |s.workers| && s.workers[i].Running?
    requires p < |s.producers| && s.lock == Free
    ensures ValidRun(s, es) && NoNewDel(es) && x.func != func
    ensures Exec(s, es).deleter == DelClearBusy(i) && Exec(s, es).aborted == s.aborted + multiset{x}
  {
    var late := SendTooLate(s, i);
    var rest;
    rest, x := LateCancelHitsAnother(Exec(s, late), i, p, func);
    RunConcat(s, late, rest);
    es := late + rest;
  }

  /** The cancel is sent, but the worker returns from the body before it takes effect. */
  lemma SendTooLate(s: State, i: nat) returns (es: seq<Event>)
    requires Inv(s) && s.deleter == DelCancel(i) && i < |s.workers| && s.workers[i].Running? && s.lock == Free
    ensures ValidRun(s, es) && NoNewDel(es) && CancelIsLate(Exec(s, es), i)
    ensures Exec(s, es).aborted == s.aborted && |Exec(s, es).producers| == |s.producers|
  {
    StepKeepsInv(s, DeleterStep);
    var back := GoOn(Apply(s, DeleterStep), i, true);
    es := Prepend(s, DeleterStep, back);
  }

  /** And in every new pool with a caller there is a run to that point: a task of the function is added and
      started, and a del that is asked for the function finds it. */
  lemma DelCanAbortAnotherFunction(s0: State, func: FuncPtr) returns (es: seq<Event>, x: Task)
    requires Init(s0) && 0 < |s0.producers| && func != NULL
    ensures ValidRun(s0, es) && (forall e | e in es :: e.CallDel? ==> e.func == func)
    ensures Exec(s0, es).deleter.DelClearBusy? && Exec(s0, es).aborted == multiset{x} && x.func != func
  {
    InitHasInv(s0);
    var call := CallAdd(0, Task(func, 0, 0));
    StepKeepsInv(s0, call);
    var s1 := Apply(s0, call);
    var add := AddToEmpty(s1, 0, 0);
    var s2 := Exec(s1, add);
    var take := TakeOldest(s2, 0);
    var s3 := Exec(s2, take);
    var rest;
    rest, x := FindAndMiss(s3, func);
    RunConcat(s2, take, rest);
    RunConcat(s1, add, take + rest);
    es := Prepend(s0, call, add + (take + rest));
  }

  lemma FindAndMiss(s: State, func: FuncPtr) returns (es: seq<Event>, x: Task)
    requires Inv(s) && s.workers[0].Running? && s.workers[0].task.func == func
    requires s.deleter.DelIdle? && s.destroyer.DestroyIdle? && 0 < |s.producers|
    ensures ValidRun(s, es) && (forall e | e in es :: e.CallDel? ==> e.func == func)
    ensures Exec(s, es).deleter.DelClearBusy? && Exec(s, es).aborted == s.aborted + multiset{x} && x.func != func
  {
    var found := CallAndFind(s, func);
    es, x := DelCanHitAnother(Exec(s, found), 0, 0, func);
    RunConcat(s, found, es);
    es := found + es;
  }

  lemma CallAndFind(s: State, func: FuncPtr) returns (es: seq<Event>)
    requires Inv(s) && s.workers[0].Running? && s.workers[0].task.func == func
    requires s.deleter.DelIdle? && s.destroyer.DestroyIdle? && 0 < |s.producers|
    ensures ValidRun(s, es) && (forall e | e in es :: e.CallDel? ==> e.func == func)
    ensures var t := Exec(s, es);
            && Inv(t) && t.deleter == DelCancel(0) && t.workers == s.workers
            && t.aborted == s.aborted && t.producers == s.producers
  {
    assert SlotFlags(s, 0);
    var s1 := Apply(s, CallDel(func));
    StepKeepsInv(s, CallDel(func));
    StepKeepsInv(s1, DeleterStep);
    es := Prepend(s1, DeleterStep, []);
    es := Prepend(s, CallDel(func), es);
  }
}
