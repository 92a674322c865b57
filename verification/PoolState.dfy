/** What the threads of a pool share, and what each critical section does to it. */
module PoolState {
  import opened RingQueue

  /** A task function pointer; NULL is 0. */
  type FuncPtr = nat
  const NULL: FuncPtr := 0

  datatype Task = Task(func: FuncPtr, arg: int, ftype: int)

  const ALIVE := 0
  const IMMEDIATE_SHUTDOWN := 1
  const GRACEFUL_SHUTDOWN := 2

  const MAX_THREADS := 50
  const MAX_QUEUE := 100

  const THREADPOOL_INVALID := -1
  const THREADPOOL_QUEUE_FULL := -3
  const THREADPOOL_SHUTDOWN := -4

  predicate ShutdownMode(mode: int) {
    mode == ALIVE || mode == IMMEDIATE_SHUTDOWN || mode == GRACEFUL_SHUTDOWN
  }

  /** The fields of the pool structure that change after its creation. */
  datatype Shared = Shared(
    ring: Ring<Task>, shutdown: int, started: int,
    types: seq<int>, busy: seq<bool>, funcs: seq<FuncPtr>)
  {
    ghost predicate Valid() {
      ring.Valid() && |types| == |busy| == |funcs|
    }

    /** The error `threadpool_add` meets: a full queue is reported before a shutdown. */
    function AddError(): int {
      if ring.count == |ring.cells| then THREADPOOL_QUEUE_FULL
      else if shutdown != ALIVE then THREADPOOL_SHUTDOWN
      else 0
    }

    function Store(task: Task): Shared
      requires ring.tail < |ring.cells|
    {
      this.(ring := ring.Push(task))
    }

    /** The oldest task leaves the ring and its type is noted against worker `i`. */
    function Grab(i: nat): Shared
      requires ring.head < |ring.cells| && 0 < ring.count && i < |types|
    {
      this.(ring := ring.Pop(), types := types[i := ring.cells[ring.head].ftype])
    }
  }

  datatype Decision = SleepOn | LeaveLoop | TakeTask

  /** What a worker holding the lock does next. For the three documented modes it never goes
      on to an empty queue; for any other value of the flag it would. */
  function Decide(shutdown: int, count: nat): (d: Decision)
    ensures d == TakeTask && count == 0 <==> count == 0 && !ShutdownMode(shutdown)
    ensures shutdown != ALIVE ==> d != SleepOn
    ensures !ShutdownMode(shutdown) ==> d == TakeTask
  {
    if count == 0 && shutdown == ALIVE then SleepOn
    else if shutdown == IMMEDIATE_SHUTDOWN || (shutdown == GRACEFUL_SHUTDOWN && count == 0) then LeaveLoop
    else TakeTask
  }
}

/** The pool structure with its arrays, and the code that runs on it under the lock. */
module PoolObject {
  import opened RingQueue
  import opened PoolState

  class ThreadPool {
    const queue: array<Task>
    const threadType: array<int>
    const threadBusy: array<bool>
    const threadFunc: array<FuncPtr>
    var head: nat
    var tail: nat
    var count: nat
    var shutdown: int
    var started: int

    ghost predicate Valid()
      reads this, queue
    {
      && threadType.Length == threadBusy.Length == threadFunc.Length
      && (threadType as object) != queue && (threadFunc as object) != queue && (threadBusy as object) != queue
      && (threadType as object) != threadFunc
      && Ring(queue[..], head, tail, count).Valid()
    }

    ghost function View(): (v: Shared)
      requires Valid()
      reads this, queue, threadType, threadBusy, threadFunc
      ensures v.Valid()
    {
      Shared(Ring(queue[..], head, tail, count), shutdown, started, threadType[..], threadBusy[..], threadFunc[..])
    }

    /** The pending tasks, oldest first. */
    ghost function Pending(): seq<Task>
      requires Valid()
      reads this, queue
    {
      Ring(queue[..], head, tail, count).Contents()
    }

    /** A pool after every worker was started. */
    constructor (threads: nat, queueSize: nat)
      requires 0 < queueSize
      ensures Valid() && fresh(queue) && fresh(threadType) && fresh(threadBusy) && fresh(threadFunc)
      ensures Pending() == [] && queue.Length == queueSize && shutdown == ALIVE && started == threads
      ensures threadType[..] == seq(threads, _ => 0)
      ensures threadBusy[..] == seq(threads, _ => false)
      ensures threadFunc[..] == seq(threads, _ => NULL)
    {
      queue := new Task[queueSize](_ => Task(NULL, 0, 0));
      threadType := new int[threads](_ => 0);
      threadBusy := new bool[threads](_ => false);
      threadFunc := new FuncPtr[threads](_ => NULL);
      head, tail, count := 0, 0, 0;
      shutdown, started := ALIVE, threads;
    }

    /** `threadpool_create`: the limits are checked before anything is touched. */
    static method Create(threads: int, queueSize: int) returns (err: int, pool: ThreadPool?)
      ensures err == 0 <==> 0 < threads <= 50 && 0 < queueSize <= 100
      ensures err != 0 ==> err == -1 && pool == null
      ensures err == 0 ==> pool != null && fresh(pool) && pool.Valid()
      ensures err == 0 ==> pool.Pending() == [] && pool.queue.Length == queueSize
      ensures err == 0 ==> pool.started == threads == pool.threadType.Length && pool.shutdown == ALIVE
    {
      if threads <= 0 || threads > MAX_THREADS || queueSize <= 0 || queueSize > MAX_QUEUE {
        return -1, null;
      }
      pool := new ThreadPool(threads, queueSize);
      err := 0;
    }

    /** The critical section of `threadpool_add`, with the test before it. */
    method Add(func: FuncPtr, arg: int, ftype: int) returns (err: int)
      requires Valid()
      modifies this`tail, this`count, queue
      ensures Valid()
      ensures func == NULL ==> err == -1
      ensures func != NULL && old(|Pending()|) == queue.Length ==> err == -3
      ensures func != NULL && old(|Pending()|) < queue.Length ==> err == if shutdown != ALIVE then -4 else 0
      ensures func != NULL ==> err == old(View()).AddError()
      ensures err == 0 ==> View() == old(View()).Store(Task(func, arg, ftype))
      ensures err == 0 ==> Pending() == old(Pending()) + [Task(func, arg, ftype)]
      ensures err != 0 ==> View() == old(View())
    {
      if func == NULL {
        return THREADPOOL_INVALID;
      }
      if count == queue.Length {
        return THREADPOOL_QUEUE_FULL;
      }
      if shutdown != ALIVE {
        return THREADPOOL_SHUTDOWN;
      }
      ghost var before := Ring(queue[..], head, tail, count);
      PushAppends(before, Task(func, arg, ftype));
      WrappedIsRemainder(tail + 1, queue.Length);
      queue[tail] := Task(func, arg, ftype);
      tail := (tail + 1) % queue.Length;
      count := count + 1;
      assert Ring(queue[..], head, tail, count) == before.Push(Task(func, arg, ftype));
      return 0;
    }

    /** One pass of a worker through its critical section, from the wait loop to the unlock. */
    method NextTask(whoami: nat) returns (decision: Decision, task: Task)
      requires Valid() && whoami < threadType.Length
      requires count == 0 ==> ShutdownMode(shutdown)
      modifies this`head, this`count, threadType
      ensures Valid()
      ensures decision == Decide(shutdown, old(count))
      ensures decision != TakeTask ==> View() == old(View())
      ensures decision == TakeTask ==> View() == old(View()).Grab(whoami)
      ensures decision == TakeTask ==> [task] + Pending() == old(Pending())
    {
      task := queue[0];
      if count == 0 && shutdown == ALIVE {
        return SleepOn, task;
      }
      if shutdown == IMMEDIATE_SHUTDOWN || (shutdown == GRACEFUL_SHUTDOWN && count == 0) {
        return LeaveLoop, task;
      }
      ghost var before := Ring(queue[..], head, tail, count);
      PopDropsOldest(before);
      WrappedIsRemainder(head + 1, queue.Length);
      task := queue[head];
      threadType[whoami] := queue[head].ftype;
      head := (head + 1) % queue.Length;
      count := count - 1;
      assert Ring(queue[..], head, tail, count) == before.Pop();
      return TakeTask, task;
    }

    /** The scan of `threadpool_del`: the first slot that runs `func`, or the thread count. */
    method FindSlot(func: FuncPtr) returns (i: nat)
      requires Valid()
      ensures i <= threadFunc.Length
      ensures i < threadFunc.Length ==> threadFunc[i] == func
      ensures forall k | 0 <= k < i :: threadFunc[k] != func
    {
      i := 0;
      while i < threadFunc.Length && threadFunc[i] != func
        invariant i <= threadFunc.Length
        invariant forall k | 0 <= k < i :: threadFunc[k] != func
      {
        i := i + 1;
      }
    }

    /** The head of `threadpool_destroy`: a second call is refused, and leaves without giving back the lock. */
    method BeginShutdown(mode: int) returns (err: int, lockKept: bool)
      requires Valid()
      modifies this`shutdown
      ensures Valid()
      ensures old(shutdown) != ALIVE ==> err == THREADPOOL_SHUTDOWN && lockKept && View() == old(View())
      ensures old(shutdown) == ALIVE ==> err == 0 && !lockKept && View() == old(View()).(shutdown := mode)
    {
      lockKept := true;
      if shutdown != ALIVE {
        return THREADPOOL_SHUTDOWN, lockKept;
      }
      shutdown := mode;
      lockKept := false;
      return 0, lockKept;
    }

    /** `threadpool_free`: nothing is released while a worker is still counted as started. */
    method Free() returns (err: int)
      ensures err in {-1, 0} && (err == 0 <==> started <= 0)
    {
      if started > 0 {
        return -1;
      }
      return 0;
    }
  }
}
