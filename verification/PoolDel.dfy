/** What threadpool_del aborts: exactly one task, and one of the function it was asked to stop if the worker
    it found makes no step of its own before the cancel takes effect. */
module PoolDel {
  import opened PoolState
  import opened PoolProtocol
  import opened PoolInvariant
  import opened PoolRuns

  ghost function DeleterSteps(es: seq<Event>): nat {
    if es == [] then 0 else (if es[0].DeleterStep? then 1 else 0) + DeleterSteps(es[1..])
  }

  /** The del has chosen slot i, and the run takes it exactly to the end of its join. */
  ghost predicate UpToJoin(s: State, es: seq<Event>, i: nat) {
    || (s.deleter == DelCancel(i) && DeleterSteps(es) == 2)
    || (s.deleter == DelJoin(i) && DeleterSteps(es) == 1)
    || (s.deleter == DelClearBusy(i) && DeleterSteps(es) == 0)
  }

  /** One step: the del stays at its slot, histories grow, and only slot i can be aborted. */
  lemma DelStep(s: State, es: seq<Event>, i: nat)
    requires Inv(s) && ValidRun(s, es) && UpToJoin(s, es, i) && es != [] && i < |s.workers|
    ensures var s' := Apply(s, es[0]);
            && UpToJoin(s', es[1..], i) && i < |s'.workers| && s.dequeued <= s'.dequeued
            && (s.workers[i].Cancelled? ==> s'.workers[i].Cancelled?)
            && (es[0] != CancelTakesEffect(i) ==> s'.aborted == s.aborted)
            && (es[0] == CancelTakesEffect(i) ==>
                  s'.workers[i].Cancelled? && s'.aborted == s.aborted + multiset{s.workers[i].task})
  {
    DelStaysAtSlot(s, es[0], i);
    OnlyTargetDies(s, es[0], i);
  }

  lemma DelStaysAtSlot(s: State, e: Event, i: nat)
    requires Shaped(s) && JoinInv(s) && Enabled(s, e) && i < |s.workers|
    requires s.deleter == DelCancel(i) || s.deleter == DelJoin(i) || (s.deleter == DelClearBusy(i) && !e.DeleterStep?)
    ensures Apply(s, e).deleter ==
            if !e.DeleterStep? then s.deleter else if s.deleter.DelCancel? then DelJoin(i) else DelClearBusy(i)
  {
  }

  lemma OnlyTargetDies(s: State, e: Event, i: nat)
    requires Shaped(s) && ShutdownInv(s) && JoinInv(s) && CancelInv(s) && Enabled(s, e) && i < |s.workers|
    requires s.deleter == DelCancel(i) || s.deleter.Targets(i)
    requires !s.deleter.DelSpawn?
    ensures var s' := Apply(s, e);
            && |s'.workers| == |s.workers| && s.dequeued <= s'.dequeued
            && (s.workers[i].Cancelled? ==> s'.workers[i].Cancelled?)
            && (e != CancelTakesEffect(i) ==> s'.aborted == s.aborted)
            && (e == CancelTakesEffect(i) ==>
                  s'.workers[i].Cancelled? && s'.aborted == s.aborted + multiset{s.workers[i].task})
  {
  }

  /** Steps of others leave the worker of slot i with what it has, apart from waking it. */
  lemma OthersLeaveSlot(s: State, e: Event, i: nat)
    requires Inv(s) && Enabled(s, e) && i < |s.workers| && !s.deleter.DelSpawn?
    requires e != WorkerStep(i) && e != CancelTakesEffect(i)
    ensures var w, w' := s.workers[i], Apply(s, e).workers[i];
            w' == w || (w.Asleep? && w'.Woken?)
  {
  }

  lemma OwnStepOfSlot(s: State, i: nat)
    requires Shaped(s) && Enabled(s, WorkerStep(i))
    ensures var w, w' := s.workers[i], ApplyWorker(s, i).workers[i];
            && !w'.Cancelled?
            && (w.Running? ==> !w'.HoldsTask())
            && (w.HoldsTask() && w'.HoldsTask() ==> w'.task == w.task)
            && (!w.HoldsTask() && w'.HoldsTask() ==> ApplyWorker(s, i).dequeued == s.dequeued + [w'.task])
  {
  }

  /** The worker of slot i in a step that does not abort it: what it has in hand stays, or ends, or is new. */
  lemma SlotBeforeAbort(s: State, e: Event, i: nat)
    requires Inv(s) && Enabled(s, e) && i < |s.workers| && !s.deleter.DelSpawn?
    requires !s.workers[i].Cancelled? && e != CancelTakesEffect(i)
    ensures var w, s' := s.workers[i], Apply(s, e); var w' := s'.workers[i];
            && !w'.Cancelled?
            && (w'.HoldsTask() ==>
                  if w.HoldsTask() then w'.task == w.task else s'.dequeued == s.dequeued + [w'.task])
            && (w.Running? ==> if e == WorkerStep(i) then !w'.HoldsTask() else w' == w)
  {
    if e == WorkerStep(i) {
      OwnStepOfSlot(s, i);
    } else {
      OthersLeaveSlot(s, e, i);
    }
  }

  /** A slot that is already dead: nothing more is aborted before the join. */
  lemma {:induction false} DeadSlotEndsIt(s: State, es: seq<Event>, i: nat)
    requires Inv(s) && ValidRun(s, es) && UpToJoin(s, es, i) && i < |s.workers| && s.workers[i].Cancelled?
    ensures Exec(s, es).aborted == s.aborted && s.dequeued <= Exec(s, es).dequeued
    decreases |es|
  {
    if es != [] {
      DelStep(s, es, i);
      StepKeepsInv(s, es[0]);
      DeadSlotEndsIt(Apply(s, es[0]), es[1..], i);
    }
  }

  lemma CancelEndsIt(s: State, es: seq<Event>, i: nat)
    requires Inv(s) && ValidRun(s, es) && UpToJoin(s, es, i) && i < |s.workers|
    requires es != [] && es[0] == CancelTakesEffect(i)
    ensures Exec(s, es).aborted == s.aborted + multiset{s.workers[i].task}
    ensures s.dequeued <= Exec(s, es).dequeued && WorkerStep(i) !in es
  {
    DelStep(s, es, i);
    StepKeepsInv(s, es[0]);
    DeadToTheEnd(Apply(s, es[0]), es[1..], i);
    assert es == [es[0]] + es[1..];
  }

  lemma DeadToTheEnd(s: State, es: seq<Event>, i: nat)
    requires Inv(s) && ValidRun(s, es) && UpToJoin(s, es, i) && i < |s.workers| && s.workers[i].Cancelled?
    ensures Exec(s, es).aborted == s.aborted && s.dequeued <= Exec(s, es).dequeued && WorkerStep(i) !in es
  {
    DeadSlotEndsIt(s, es, i);
    NoStepOfTheDead(s, es, i);
  }

  /** Between choosing slot i and joining it a del aborts exactly one task. It is the one that was
      running there if the worker makes no step of its own; if it does, the task it ran is completed and
      the one aborted left the queue only afterwards. */
  lemma {:induction false} DelAbortsOne(s: State, es: seq<Event>, i: nat) returns (x: Task)
    requires Inv(s) && ValidRun(s, es) && UpToJoin(s, es, i) && i < |s.workers| && !s.workers[i].Cancelled?
    ensures Exec(s, es).aborted == s.aborted + multiset{x} && s.dequeued <= Exec(s, es).dequeued
    ensures s.workers[i].Running? && WorkerStep(i) !in es ==> x == s.workers[i].task
    ensures s.workers[i].Running? && WorkerStep(i) in es ==> x in Exec(s, es).dequeued[|s.dequeued|..]
    ensures !s.workers[i].HoldsTask() ==> x in Exec(s, es).dequeued[|s.dequeued|..]
    ensures s.workers[i].HoldsTask() ==> x == s.workers[i].task || x in Exec(s, es).dequeued[|s.dequeued|..]
    decreases |es|
  {
    if es == [] {
      assert false;
    } else {
      var e := es[0];
      var s' := Apply(s, e);
      DelStep(s, es, i);
      StepKeepsInv(s, e);
      assert es == [e] + es[1..];
      if e == CancelTakesEffect(i) {
        x := s.workers[i].task;
        CancelEndsIt(s, es, i);
      } else {
        SlotBeforeAbort(s, e, i);
        x := DelAbortsOne(s', es[1..], i);
        LaterStaysLater(s.dequeued, s'.dequeued, Exec(s, es).dequeued, x);
      }
    }
  }

  /** The scan has found `func` in slot i and the worker there is inside the body. If it makes no step of
      its own until the join, the task aborted is the one it runs, and that is one of `func`. */
  lemma {:induction false} FoundTaskIsAborted(s: State, es: seq<Event>, i: nat, func: FuncPtr) returns (x: Task)
    requires Inv(s) && ValidRun(s, es) && i < |s.workers| && s.workers[i].Running?
    requires s.deleter == DelScan(i, func) && s.shared.funcs[i] == func
    requires DeleterSteps(es) == 3 && WorkerStep(i) !in es
    ensures x == s.workers[i].task && x.func == func
    ensures Exec(s, es).aborted == s.aborted + multiset{x} && Exec(s, es).deleter == DelClearBusy(i)
    decreases |es|
  {
    var e := es[0];
    var s' := Apply(s, e);
    StepKeepsInv(s, e);
    assert es == [e] + es[1..];
    ScanStep(s, e, i, func);
    if e.DeleterStep? {
      x := DelAbortsOne(s', es[1..], i);
      JoinIsReached(s', es[1..], i);
      assert SlotFlags(s, i);
    } else {
      x := FoundTaskIsAborted(s', es[1..], i, func);
    }
  }

  lemma ScanStep(s: State, e: Event, i: nat, func: FuncPtr)
    requires Inv(s) && Enabled(s, e) && Inv(Apply(s, e)) && i < |s.workers| && s.workers[i].Running?
    requires s.deleter == DelScan(i, func) && s.shared.funcs[i] == func && e != WorkerStep(i)
    ensures var s' := Apply(s, e);
            && s'.workers[i] == s.workers[i] && s'.aborted == s.aborted
            && s'.deleter == (if e.DeleterStep? then DelCancel(i) else s.deleter)
            && s'.shared.funcs[i] == func
  {
    if e.CancelTakesEffect? {
      assert false;
    }
    OthersLeaveSlot(s, e, i);
    assert SlotFlags(s, i) && SlotFlags(Apply(s, e), i);
  }

  lemma {:induction false} JoinIsReached(s: State, es: seq<Event>, i: nat)
    requires Inv(s) && ValidRun(s, es) && UpToJoin(s, es, i) && i < |s.workers|
    ensures Exec(s, es).deleter == DelClearBusy(i)
    decreases |es|
  {
    if es != [] {
      DelStep(s, es, i);
      StepKeepsInv(s, es[0]);
      JoinIsReached(Apply(s, es[0]), es[1..], i);
    }
  }

  lemma {:induction false} NoStepOfTheDead(s: State, es: seq<Event>, i: nat)
    requires Inv(s) && ValidRun(s, es) && UpToJoin(s, es, i) && i < |s.workers| && s.workers[i].Cancelled?
    ensures WorkerStep(i) !in es
    decreases |es|
  {
    if es != [] {
      DelStep(s, es, i);
      StepKeepsInv(s, es[0]);
      NoStepOfTheDead(Apply(s, es[0]), es[1..], i);
    }
  }

  lemma LaterStaysLater(a: seq<Task>, b: seq<Task>, c: seq<Task>, x: Task)
    requires a <= b <= c
    ensures x in c[|b|..] ==> x in c[|a|..]
    ensures |b| > |a| && x == b[|a|] ==> x in c[|a|..]
  {
    if x in c[|b|..] {
      var k :| 0 <= k < |c[|b|..]| && c[|b|..][k] == x;
      assert c[|a|..][k + |b| - |a|] == x;
    }
    if |b| > |a| && x == b[|a|] {
      assert c[|a|..][0] == x;
    }
  }
}
