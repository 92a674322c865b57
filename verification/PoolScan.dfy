/** What threadpool_del looks for: the first slot that it reads its function in, and no other. */
module PoolScan {
  import opened PoolState
  import opened PoolProtocol
  import opened PoolInvariant
  import opened PoolRuns

  /** The entry of thread_func that the scan reads in a step, if the step is one of the scan. */
  ghost function Look(s: State, e: Event): seq<FuncPtr> {
    if e.DeleterStep? && s.deleter.DelScan? && s.deleter.i < |s.shared.funcs| then [s.shared.funcs[s.deleter.i]] else []
  }

  /** The entries that the scan has read by the end of a run, in order, if it had read `looked` before. */
  ghost function Looked(s: State, es: seq<Event>, looked: seq<FuncPtr>): seq<FuncPtr>
    requires ValidRun(s, es)
    decreases |es|
  {
    if es == [] then looked else Looked(Apply(s, es[0]), es[1..], looked + Look(s, es[0]))
  }

  /** What the entries read so far say about where a del of func is. */
  ghost predicate Accords(d: DeleterPc, looked: seq<FuncPtr>, func: FuncPtr, threads: nat) {
    match d
    case DelScan(i, f) => f == func && |looked| == i <= threads && func !in looked
    case DelIdle =>
      || (|looked| == threads && func !in looked)
      || (looked != [] && looked[|looked| - 1] == func && func !in looked[..|looked| - 1])
    case _ => |looked| == d.i + 1 && looked[d.i] == func && func !in looked[..d.i]
  }

  lemma StepAccords(s: State, e: Event, looked: seq<FuncPtr>, func: FuncPtr)
    requires Shaped(s) && JoinInv(s) && Enabled(s, e) && !e.CallDel? && Accords(s.deleter, looked, func, |s.workers|)
    ensures Accords(Apply(s, e).deleter, looked + Look(s, e), func, |s.workers|)
    ensures |Apply(s, e).workers| == |s.workers|
  {
    if e.DeleterStep? {
      DelAccords(s, looked, func);
    } else {
      OnlyDelMovesDel(s, e);
      assert looked + Look(s, e) == looked;
    }
  }

  lemma DelAccords(s: State, looked: seq<FuncPtr>, func: FuncPtr)
    requires Shaped(s) && JoinInv(s) && Enabled(s, DeleterStep) && Accords(s.deleter, looked, func, |s.workers|)
    ensures Accords(ApplyDeleter(s).deleter, looked + Look(s, DeleterStep), func, |s.workers|)
    ensures |ApplyDeleter(s).workers| == |s.workers|
  {
    if Look(s, DeleterStep) == [] {
      assert looked + Look(s, DeleterStep) == looked;
    } else {
      assert (looked + Look(s, DeleterStep))[..|looked|] == looked;
    }
  }

  lemma OnlyDelMovesDel(s: State, e: Event)
    requires Shaped(s) && Enabled(s, e) && !e.DeleterStep? && !e.CallDel?
    ensures Apply(s, e).deleter == s.deleter && |Apply(s, e).workers| == |s.workers|
  {
  }

  lemma {:induction false} RunAccords(s: State, es: seq<Event>, looked: seq<FuncPtr>, func: FuncPtr)
    requires Inv(s) && ValidRun(s, es) && NoNewDel(es) && Accords(s.deleter, looked, func, |s.workers|)
    ensures Accords(Exec(s, es).deleter, Looked(s, es, looked), func, |s.workers|)
    decreases |es|
  {
    if es != [] {
      assert es[0] in es;
      StepKeepsInv(s, es[0]);
      StepAccords(s, es[0], looked, func);
      RunAccords(Apply(s, es[0]), es[1..], looked + Look(s, es[0]), func);
    }
  }

  /** The scan reads the slots in order. It cancels the worker of a slot exactly if it has read the function
      there and in no slot before, and gives up exactly if it has read all slots and the function in none. */
  lemma ScanStopsAtFirst(s: State, es: seq<Event>, func: FuncPtr)
    requires Inv(s) && Enabled(s, CallDel(func)) && ValidRun(Apply(s, CallDel(func)), es) && NoNewDel(es)
    ensures var called := Apply(s, CallDel(func));
            var d, looked := Exec(called, es).deleter, Looked(called, es, []);
            && (d.DelScan? ==> d.func == func && |looked| == d.i && func !in looked)
            && (!d.DelScan? && !d.DelIdle? ==>
                  |looked| == d.i + 1 && looked[d.i] == func && func !in looked[..d.i])
            && (d.DelIdle? ==>
                  || (|looked| == |s.workers| && func !in looked)
                  || (looked != [] && looked[|looked| - 1] == func && func !in looked[..|looked| - 1]))
  {
    var called := Apply(s, CallDel(func));
    StepKeepsInv(s, CallDel(func));
    RunAccords(called, es, [], func);
  }

  // ---- slots without the function ----

  /** No dels of other functions, and no destroy. */
  ghost predicate OnlyDelsOf(es: seq<Event>, func: FuncPtr) {
    forall e | e in es :: !e.CallDestroy? && (e.CallDel? ==> e.func == func)
  }

  /** Slot k does not show the function in any state of the run. */
  ghost predicate NeverShows(s: State, es: seq<Event>, k: nat, func: FuncPtr)
    requires ValidRun(s, es)
    decreases |es|
  {
    && k < |s.shared.funcs| && s.shared.funcs[k] != func
    && (es == [] || NeverShows(Apply(s, es[0]), es[1..], k, func))
  }

  /** The del in progress, if any, is one of func and is not after slot k. */
  ghost predicate Spares(s: State, k: nat, func: FuncPtr) {
    && s.destroyer.DestroyIdle?
    && (s.deleter.DelScan? ==> s.deleter.func == func)
    && s.deleter != DelCancel(k) && !s.deleter.Targets(k)
  }

  lemma StepSpares(s: State, e: Event, k: nat, func: FuncPtr)
    requires Inv(s) && Enabled(s, e) && Spares(s, k, func) && k < |s.workers| && s.shared.funcs[k] != func
    requires !e.CallDestroy? && (e.CallDel? ==> e.func == func)
    ensures Spares(Apply(s, e), k, func) && e != CancelTakesEffect(k) && |Apply(s, e).workers| == |s.workers|
  {
  }

  /** A worker whose slot never shows the function is never cancelled by dels of that function. */
  lemma {:induction false} OtherSlotsAreSpared(s: State, es: seq<Event>, k: nat, func: FuncPtr)
    requires Inv(s) && Spares(s, k, func) && k < |s.workers|
    requires ValidRun(s, es) && OnlyDelsOf(es, func) && NeverShows(s, es, k, func)
    ensures Spares(Exec(s, es), k, func) && CancelTakesEffect(k) !in es
    decreases |es|
  {
    if es != [] {
      assert es == [es[0]] + es[1..];
      StepKeepsInv(s, es[0]);
      StepSpares(s, es[0], k, func);
      OtherSlotsAreSpared(Apply(s, es[0]), es[1..], k, func);
    }
  }

  /** So a del of a function that no slot ever shows aborts nothing. */
  lemma UnknownFunctionAbortsNothing(s0: State, es: seq<Event>, func: FuncPtr)
    requires Init(s0) && ValidRun(s0, es) && OnlyDelsOf(es, func)
    requires forall k | 0 <= k < |s0.workers| :: NeverShows(s0, es, k, func)
    ensures Exec(s0, es).aborted == multiset{}
  {
    InitHasInv(s0);
    forall k | 0 <= k < |s0.workers|
      ensures CancelTakesEffect(k) !in es
    {
      OtherSlotsAreSpared(s0, es, k, func);
    }
    NoCancelNoAbort(s0, es);
  }

  lemma {:induction false} NoCancelNoAbort(s: State, es: seq<Event>)
    requires ValidRun(s, es) && forall k | 0 <= k < |s.workers| :: CancelTakesEffect(k) !in es
    ensures Exec(s, es).aborted == s.aborted
    decreases |es|
  {
    if es != [] {
      assert es == [es[0]] + es[1..];
      AbortIsCancel(s, es[0]);
      NoCancelNoAbort(Apply(s, es[0]), es[1..]);
    }
  }

  lemma AbortIsCancel(s: State, e: Event)
    requires Shaped(s) && Enabled(s, e)
    ensures |Apply(s, e).workers| == |s.workers| && (!e.CancelTakesEffect? ==> Apply(s, e).aborted == s.aborted)
  {
  }
}
