/** A whole call of threadpool_add, from the call to the return: what it answers, and what it stores. */
module PoolCalls {
  import opened PoolState
  import opened PoolProtocol
  import opened PoolInvariant
  import opened PoolRuns

  ghost predicate StepOf(e: Event, p: nat) { e.ProducerStep? && e.p == p }

  ghost predicate NoNewCall(es: seq<Event>, p: nat) {
    forall e | e in es :: e.CallAdd? ==> e.p != p
  }

  /** The tasks that the steps of caller p put into the queue. */
  ghost function StoredBy(s: State, es: seq<Event>, p: nat): seq<Task>
    requires ValidRun(s, es)
    decreases |es|
  {
    if es == [] then []
    else
      var s' := Apply(s, es[0]);
      (if StepOf(es[0], p) && |s.accepted| < |s'.accepted| then s'.accepted[|s.accepted|..] else [])
      + StoredBy(s', es[1..], p)
  }

  /** Nobody else moves a caller. */
  lemma CallerWaits(s: State, e: Event, p: nat)
    requires Shaped(s) && Enabled(s, e) && p < |s.producers| && !StepOf(e, p) && (e.CallAdd? ==> e.p != p)
    ensures |Apply(s, e).producers| == |s.producers| && Apply(s, e).producers[p] == s.producers[p]
  {
  }

  lemma CallersStay(s: State, e: Event)
    requires Shaped(s) && Enabled(s, e)
    ensures |Apply(s, e).producers| == |s.producers|
  {
  }

  /** From the test on the answer is settled, and a task is stored exactly if the test let it pass. */
  lemma {:induction false} AfterTheTest(s: State, es: seq<Event>, p: nat)
    requires Inv(s) && ValidRun(s, es) && p < |s.producers| && NoNewCall(es, p)
    requires var c := s.producers[p]; c.AddStore? || c.AddSignal? || c.AddUnlock? || c.AddReturned?
    ensures var c := s.producers[p]; var t := Exec(s, es);
            && |t.producers| == |s.producers|
            && (t.producers[p].AddReturned? ==>
                  && t.producers[p].err == (if c.AddUnlock? || c.AddReturned? then c.err else 0)
                  && StoredBy(s, es, p) == if c.AddStore? then [c.task] else [])
    decreases |es|
  {
    if es != [] {
      var e := es[0];
      assert e in es;
      StepKeepsInv(s, e);
      CallersStay(s, e);
      if !StepOf(e, p) {
        CallerWaits(s, e, p);
      }
      AfterTheTest(Apply(s, e), es[1..], p);
    }
  }

  /** Caller p is at its test, under the lock, and err is what the test has to say: the queue is full, or a
      shutdown has begun, or neither. */
  ghost predicate Tested(t: State, p: nat, err: int) {
    && Shaped(t) && p < |t.producers| && t.producers[p].AddTest? && t.lock == Producer(p)
    && err == (if |Pending(t)| == |t.shared.ring.cells| then -3 else if t.shared.shutdown != 0 then -4 else 0)
  }

  lemma TestSettles(s: State, p: nat, woken: set<nat>)
    requires Shaped(s) && LockInv(s) && p < |s.producers| && s.producers[p].AddTest?
    ensures Enabled(s, ProducerStep(p, woken))
    ensures var c := ApplyProducer(s, p, woken).producers[p];
            && ApplyProducer(s, p, woken).accepted == s.accepted
            && if c.AddUnlock? then c.err != 0 && Tested(s, p, c.err)
               else c == AddStore(s.producers[p].task) && Tested(s, p, 0)
  {
  }

  lemma LockIsTaken(s: State, p: nat, woken: set<nat>)
    requires Shaped(s) && p < |s.producers| && s.producers[p].AddWant? && Enabled(s, ProducerStep(p, woken))
    ensures ApplyProducer(s, p, woken).producers[p] == AddTest(s.producers[p].task)
    ensures ApplyProducer(s, p, woken).accepted == s.accepted
    ensures |ApplyProducer(s, p, woken).producers| == |s.producers|
  {
  }

  lemma {:induction false} StoresItsOwn(s: State, es: seq<Event>, p: nat, task: Task)
    requires Inv(s) && ValidRun(s, es) && p < |s.producers| && NoNewCall(es, p)
    requires s.producers[p] == AddWant(task) || s.producers[p] == AddTest(task)
    requires p < |Exec(s, es).producers| && Exec(s, es).producers[p].AddReturned?
    ensures StoredBy(s, es, p) == if Exec(s, es).producers[p].err == 0 then [task] else []
    decreases |es|
  {
    var e := es[0];
    assert e in es;
    StepKeepsInv(s, e);
    CallersStay(s, e);
    if StepOf(e, p) && s.producers[p].AddTest? {
      TestSettles(s, p, e.woken);
      AfterTheTest(Apply(s, e), es[1..], p);
    } else {
      if StepOf(e, p) {
        LockIsTaken(s, p, e.woken);
      } else {
        CallerWaits(s, e, p);
      }
      StoresItsOwn(Apply(s, e), es[1..], p, task);
    }
  }

  /** In some state of the run the caller is at its test, with that outcome. */
  ghost predicate TestedInRun(s: State, es: seq<Event>, p: nat, task: Task, err: int)
    requires ValidRun(s, es)
    decreases |es|
  {
    || (Tested(s, p, err) && s.producers[p].task == task)
    || (es != [] && TestedInRun(Apply(s, es[0]), es[1..], p, task, err))
  }

  lemma {:induction false} FromTheLockOn(s: State, es: seq<Event>, p: nat, task: Task)
    requires Inv(s) && ValidRun(s, es) && p < |s.producers| && NoNewCall(es, p)
    requires s.producers[p] == AddWant(task) || s.producers[p] == AddTest(task)
    requires p < |Exec(s, es).producers| && Exec(s, es).producers[p].AddReturned?
    ensures TestedInRun(s, es, p, task, Exec(s, es).producers[p].err)
    decreases |es|
  {
    var e := es[0];
    assert e in es;
    StepKeepsInv(s, e);
    CallersStay(s, e);
    if StepOf(e, p) && s.producers[p].AddTest? {
      TestSettles(s, p, e.woken);
      AfterTheTest(Apply(s, e), es[1..], p);
    } else {
      if StepOf(e, p) {
        LockIsTaken(s, p, e.woken);
      } else {
        CallerWaits(s, e, p);
      }
      FromTheLockOn(Apply(s, e), es[1..], p, task);
    }
  }

  /** A call of threadpool_add that has returned, `es` being what happened since. For a NULL function it answered
      -1. Else there was a moment at which it had the lock and tested: it answers -3 if the queue was then full,
      -4 if it was not but a shutdown had begun, and otherwise 0. If it answers 0 it has stored its own task, once,
      and else nothing. */
  lemma AddAnswersForItsTest(s: State, es: seq<Event>, p: nat, task: Task)
    requires Inv(s) && Enabled(s, CallAdd(p, task)) && ValidRun(Apply(s, CallAdd(p, task)), es) && NoNewCall(es, p)
    requires var t := Exec(Apply(s, CallAdd(p, task)), es); p < |t.producers| && t.producers[p].AddReturned?
    ensures var called := Apply(s, CallAdd(p, task)); var err := Exec(called, es).producers[p].err;
            && (task.func == NULL ==> err == -1)
            && (task.func != NULL ==> TestedInRun(called, es, p, task, err))
            && StoredBy(called, es, p) == if err == 0 then [task] else []
  {
    var called := Apply(s, CallAdd(p, task));
    StepKeepsInv(s, CallAdd(p, task));
    if task.func == NULL {
      AfterTheTest(called, es, p);
    } else {
      StoresItsOwn(called, es, p, task);
      FromTheLockOn(called, es, p, task);
    }
  }

  /** Nobody but a caller of threadpool_add puts a task into the queue, and each only its own. */
  lemma OnlyCallersStore(s: State, e: Event)
    requires Inv(s) && Enabled(s, e)
    ensures Apply(s, e).accepted ==
            if e.ProducerStep? && s.producers[e.p].AddStore? then s.accepted + [s.producers[e.p].task] else s.accepted
  {
  }
}
