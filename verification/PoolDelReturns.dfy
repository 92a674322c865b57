/** A del can always come to its end, as long as there is anybody to bring a task. */
module PoolDelReturns {
  import opened PoolState
  import opened PoolProtocol
  import opened PoolInvariant
  import opened PoolRuns
  import opened PoolScan
  import opened PoolDelMiss

  /** How many steps of its own a del is from its return, at most. */
  ghost function DelStepsLeft(d: DeleterPc, threads: nat): int {
    match d
    case DelIdle => 0
    case DelSpawn(_) => 1
    case DelClearFunc(_) => 2
    case DelClearType(_) => 3
    case DelClearBusy(_) => 4
    case DelJoin(_) => 5
    case DelCancel(_) => 6
    case DelScan(i, _) => 7 + threads - i
  }

  /** Each step of a del brings it nearer to its return, and no other step takes it away from there; it waits for
      nothing but its join. */
  lemma DelApproachesReturn(s: State, e: Event)
    requires Shaped(s) && JoinInv(s) && Enabled(s, e) && !s.deleter.DelIdle?
    ensures var n := |s.workers|; var left := DelStepsLeft(s.deleter, n);
            && 0 < left <= n + 7 && |Apply(s, e).workers| == n
            && 0 <= DelStepsLeft(Apply(s, e).deleter, n)
            && (if e.DeleterStep? then DelStepsLeft(Apply(s, e).deleter, n) < left
                else Apply(s, e).deleter == s.deleter)
    ensures s.deleter.DelJoin? || Enabled(s, DeleterStep)
  {
    if e.DeleterStep? {
      OwnStepOfDel(s);
    } else {
      OnlyDelMovesDel(s, e);
    }
  }

  lemma OwnStepOfDel(s: State)
    requires Shaped(s) && JoinInv(s) && Enabled(s, DeleterStep)
    ensures var n := |s.workers|; var t := ApplyDeleter(s);
            |t.workers| == n && 0 <= DelStepsLeft(t.deleter, n) < DelStepsLeft(s.deleter, n)
  {
  }

  /** A worker that del waits for is brought to the lock, and the lock is free. */
  lemma BringToLock(s: State, i: nat) returns (es: seq<Event>)
    requires Inv(s) && s.deleter == DelJoin(i) && !s.workers[i].Gone()
    ensures ValidRun(s, es) && NoNewDel(es) && CancelIsLate(Exec(s, es), i)
    ensures |Exec(s, es).producers| == |s.producers|
  {
    es := FreeTheLock(s);
    RunKeepsInv(s, es);
    var t := Exec(s, es);
    assert !t.workers[i].OwnsLock();
    var more := LeaveBody(t, i);
    RunConcat(s, es, more);
    es := es + more;
  }

  lemma LeaveBody(s: State, i: nat) returns (es: seq<Event>)
    requires Inv(s) && s.lock == Free && s.deleter == DelJoin(i) && !s.workers[i].Gone()
    ensures ValidRun(s, es) && NoNewDel(es) && CancelIsLate(Exec(s, es), i)
    ensures |Exec(s, es).producers| == |s.producers|
  {
    var w := s.workers[i];
    if AtLock(w) {
      es := [];
    } else if w.Asleep? {
      var e := SpuriousWake(i);
      StepKeepsInv(s, e);
      es := Prepend(s, e, []);
    } else if w.SetBusy? || w.SetFunc? {
      es := GoOn(s, i, false);
      var back := GoOn(Exec(s, es), i, true);
      RunConcat(s, es, back);
      es := es + back;
    } else {
      es := GoOn(s, i, true);
    }
  }

  /** From its join on a del needs no more than its own steps. */
  lemma {:induction false} ReturnFromJoin(s: State) returns (es: seq<Event>)
    requires Inv(s) && !s.deleter.DelScan? && !s.deleter.DelCancel?
    requires s.deleter.DelJoin? ==> s.workers[s.deleter.i].Gone()
    ensures ValidRun(s, es) && NoNewDel(es) && Exec(s, es).deleter == DelIdle
    decreases DelStepsLeft(s.deleter, |s.workers|)
  {
    if s.deleter.DelIdle? {
      es := [];
    } else {
      StepKeepsInv(s, DeleterStep);
      DelApproachesReturn(s, DeleterStep);
      es := ReturnFromJoin(Apply(s, DeleterStep));
      es := Prepend(s, DeleterStep, es);
    }
  }

  /** Wherever a del is, if there is anybody to call threadpool_add the run can go on, with no other del, so that it
      returns. */
  lemma {:induction false} DelCanReturn(s: State, p: nat) returns (es: seq<Event>)
    requires Inv(s) && p < |s.producers|
    ensures ValidRun(s, es) && NoNewDel(es) && Exec(s, es).deleter == DelIdle
    decreases DelStepsLeft(s.deleter, |s.workers|)
  {
    if s.deleter.DelJoin? && !s.workers[s.deleter.i].Gone() {
      es := ReachTheJoin(s, p);
      RunKeepsInv(s, es);
      var rest := ReturnFromJoin(Exec(s, es));
      RunConcat(s, es, rest);
      es := es + rest;
    } else if s.deleter.DelIdle? {
      es := [];
    } else {
      StepKeepsInv(s, DeleterStep);
      DelApproachesReturn(s, DeleterStep);
      es := DelCanReturn(Apply(s, DeleterStep), p);
      es := Prepend(s, DeleterStep, es);
    }
  }

  lemma ReachTheJoin(s: State, p: nat) returns (es: seq<Event>)
    requires Inv(s) && s.deleter.DelJoin? && !s.workers[s.deleter.i].Gone() && p < |s.producers|
    ensures ValidRun(s, es) && NoNewDel(es) && Exec(s, es).deleter == DelClearBusy(s.deleter.i)
  {
    var i := s.deleter.i;
    es := BringToLock(s, i);
    var rest, x := LateCancelHitsAnother(Exec(s, es), i, p, NULL);
    RunConcat(s, es, rest);
    es := es + rest;
  }
}
