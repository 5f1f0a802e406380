/**
 * The sequential skeleton of the worker pool: its lifecycle flags, the task
 * id counter, the shared task queue, and one pass of a worker's loop. A
 * task's action is a call into the inverted index.
 */
module Pool {
  import opened Wrappers
  import opened Index
  import opened Queue

  /** What running a task does to the index. */
  function Execute(s: IndexState, t: Task): IndexState {
    match t
    case AddTask(filename, content) => AfterAdd(s, filename, content)
    case DeleteTask(filename) => AfterDelete(s, filename)
  }

  /** Running the tasks of es one after another, oldest first. */
  function ExecuteAll(s: IndexState, es: seq<Entry>): IndexState
    decreases |es|
  {
    if es == [] then s else ExecuteAll(Execute(s, es[0].task), es[1..])
  }

  /** What one pass of a worker's loop does. */
  datatype Step =
    | Blocked          // the wait predicate is false: the worker sleeps
    | Exited           // terminated and nothing left: the worker returns
    | Skipped          // paused: `continue` without popping
    | Ran(entry: Entry)  // popped the front entry and ran its task

  /** The pass a worker makes, from the flags and the queue it sees. */
  function NextStep(terminated: bool, paused: bool, q: QueueState): Step {
    if !terminated && q.tasks == [] then Blocked
    else if terminated && q.tasks == [] then Exited
    else if paused then Skipped
    else Ran(q.tasks[0])
  }

  /** Calls into the index the way the wrapped closure does. */
  method RunTask(index: InvertedIndex, t: Task)
    modifies index
    ensures index.State() == Execute(old(index.State()), t)
  {
    match t
    case AddTask(filename, content) => index.AddFile(filename, content);
    case DeleteTask(filename) => index.DeleteFile(filename);
  }

  class ThreadPool {
    var initialized: bool
    var terminated: bool
    var paused: bool
    var lastId: int
    /** How many workers the latest initialize started and no terminate has joined yet. */
    var workers: nat
    /** `m_tasks` */
    const queue: TaskQueue

    ghost predicate Valid()
      reads this, queue
    {
      queue.Valid()
    }

    /** Whether a terminate would never return: paused workers spin on pending tasks. */
    predicate Spins()
      reads this, queue
    {
      initialized && paused && workers > 0 && queue.tasks != []
    }

    constructor ()
      ensures Valid() && fresh(queue)
      ensures !initialized && !terminated && !paused && lastId == 0 && workers == 0
      ensures queue.State() == Fresh
    {
      initialized, terminated, paused := false, false, false;
      lastId := 0;
      workers := 0;
      queue := new TaskQueue();
    }

    method Working() returns (w: bool)
      ensures w <==> initialized && !terminated
    {
      w := initialized && !terminated;
    }

    /** Keeps only `m_paused = true`; the wait for a notification that follows is not modelled. */
    method Pause()
      modifies this
      ensures paused
      ensures initialized == old(initialized) && terminated == old(terminated)
      ensures lastId == old(lastId) && workers == old(workers)
    {
      paused := true;
    }

    method Resume()
      modifies this
      ensures !paused
      ensures initialized == old(initialized) && terminated == old(terminated)
      ensures lastId == old(lastId) && workers == old(workers)
    {
      paused := false;
    }

    /**
     * Issues the next id and offers the task to the queue; the id is
     * returned whether or not the queue accepted the task.
     */
    method AddTask(task: Task, now: TimePoint) returns (id: int)
      requires Valid()
      modifies this, queue
      ensures Valid()
      ensures id == old(lastId) + 1 && lastId == id
      ensures queue.State() == Emplaced(old(queue.State()), Entry(id, task), now)
      ensures initialized == old(initialized) && terminated == old(terminated)
      ensures paused == old(paused) && workers == old(workers)
    {
      lastId := lastId + 1;
      var accepted := queue.Emplace(Entry(lastId, task), now);
      id := lastId;
    }

    /** One pass of `routine`'s loop, run by any worker against the index the tasks update. */
    method RoutineStep(index: InvertedIndex) returns (step: Step)
      requires Valid()
      modifies queue, index
      ensures Valid()
      ensures step == NextStep(terminated, paused, old(queue.State()))
      ensures queue.State() == if step.Ran? then Popped(old(queue.State())) else old(queue.State())
      ensures index.State() == if step.Ran? then Execute(old(index.State()), step.entry.task) else old(index.State())
    {
      var empty := queue.Empty();
      if !terminated && empty {
        return Blocked;
      }
      if terminated && empty {
        return Exited;
      }
      if paused {
        return Skipped;
      }
      var popped := queue.Pop();
      step := Ran(popped.value);
      RunTask(index, popped.value.task);
    }

    /**
     * No-op unless initialized. Otherwise sets terminated and joins the live
     * workers: they keep popping and running tasks until the queue is empty,
     * then exit. Without live workers nothing runs. The tasks run in queue
     * order, as they do when one worker runs them all.
     */
    method Terminate(index: InvertedIndex)
      requires Valid() && !Spins()
      modifies this, queue, index
      ensures Valid()
      ensures paused == old(paused) && lastId == old(lastId)
      ensures !old(initialized) ==>
        && !initialized && terminated == old(terminated) && workers == old(workers)
      ensures old(initialized) ==> !initialized && terminated && workers == 0
      ensures queue.State() == Joined(old(initialized), old(workers), old(queue.State()))
      ensures index.State() == AfterJoin(old(initialized), old(workers), old(queue.State()), old(index.State()))
    {
      if !initialized {
        return;
      }
      terminated := true;
      if workers > 0 {
        while true
          invariant Valid() && terminated && initialized && workers > 0
          invariant paused == old(paused) && lastId == old(lastId)
          invariant paused ==> queue.tasks == []
          invariant queue.missingTasks == old(queue.missingTasks)
          invariant queue.isFull == old(queue.isFull) && queue.fullTime == old(queue.fullTime)
          invariant ExecuteAll(index.State(), queue.tasks) == ExecuteAll(old(index.State()), old(queue.tasks))
          decreases |queue.tasks|
        {
          ghost var pending := queue.tasks;
          var step := RoutineStep(index);
          if step.Exited? {
            break;
          }
          assert pending == [pending[0]] + pending[1..];
        }
      }
      workers := 0;
      initialized := false;
    }

    /** Terminates the previous generation, then starts workerCount workers. */
    method Initialize(workerCount: nat, index: InvertedIndex)
      requires Valid() && !Spins()
      modifies this, queue, index
      ensures Valid()
      ensures initialized && !terminated && workers == workerCount
      ensures paused == old(paused) && lastId == old(lastId)
      ensures queue.State() == Joined(old(initialized), old(workers), old(queue.State()))
      ensures index.State() == AfterJoin(old(initialized), old(workers), old(queue.State()), old(index.State()))
    {
      Terminate(index);
      initialized := true;
      terminated := false;
      workers := workerCount;
    }
  }

  /** Whether terminating a pool in this state runs its pending tasks. */
  predicate Drains(initialized: bool, workers: nat) {
    initialized && workers > 0
  }

  /** The queue a terminate leaves. */
  function Joined(initialized: bool, workers: nat, q: QueueState): QueueState {
    if Drains(initialized, workers) then Cleared(q) else q
  }

  /**
   * The index a terminate leaves: every pending task has run, in queue order
   * (the order one worker runs them in; concurrent workers may finish
   * popped tasks in another order).
   */
  function AfterJoin(initialized: bool, workers: nat, q: QueueState, s: IndexState): IndexState {
    if Drains(initialized, workers) then ExecuteAll(s, q.tasks) else s
  }

  // ---- the worker step ----

  /** A worker exits exactly when the pool is terminated and the queue is empty. */
  lemma StepExitsIff(terminated: bool, paused: bool, q: QueueState)
    ensures NextStep(terminated, paused, q).Exited? <==> terminated && q.tasks == []
  {
  }

  /**
   * A worker pops nothing while paused; otherwise, with work pending, it
   * pops exactly the front entry, terminated or not.
   */
  lemma StepPopsFront(terminated: bool, paused: bool, q: QueueState)
    ensures paused ==> !NextStep(terminated, paused, q).Ran?
    ensures !paused && q.tasks != [] ==> NextStep(terminated, paused, q) == Ran(q.tasks[0])
  {
  }

  /**
   * On a terminated, paused pool with pending tasks a worker neither exits
   * nor pops: its loop makes no progress.
   */
  lemma PausedTerminatedSpins(q: QueueState)
    requires q.tasks != []
    ensures NextStep(true, true, q) == Skipped
  {
  }

  // ---- effect of running tasks on the index ----

  /** How many of the entries are adds and how many deletes. */
  function Adds(es: seq<Entry>): nat {
    if es == [] then 0 else (if es[0].task.AddTask? then 1 else 0) + Adds(es[1..])
  }

  function Deletes(es: seq<Entry>): nat {
    if es == [] then 0 else (if es[0].task.DeleteTask? then 1 else 0) + Deletes(es[1..])
  }

  /**
   * The counter after running tasks moves by one per add and back by one
   * per delete, modulo 2^64, whatever the files involved.
   */
  lemma CountAfterTasks(s: IndexState, es: seq<Entry>)
    ensures ExecuteAll(s, es).count == (s.count + Adds(es) - Deletes(es)) % (SizeMax + 1)
  {
    ExecuteAllCount(s, es);
    CounterWraps(s.count, es);
  }

  /** The counter alone, stepped by each task in turn. */
  function Counter(c: SizeT, es: seq<Entry>): SizeT
    decreases |es|
  {
    if es == [] then c
    else Counter(if es[0].task.AddTask? then Increment(c) else Decrement(c), es[1..])
  }

  /** The counter after running tasks depends on nothing but the counter before and the kinds of the tasks. */
  lemma {:induction false} ExecuteAllCount(s: IndexState, es: seq<Entry>)
    ensures ExecuteAll(s, es).count == Counter(s.count, es)
    decreases |es|
  {
    if es != [] {
      ExecuteAllCount(Execute(s, es[0].task), es[1..]);
    }
  }

  lemma {:induction false} CounterWraps(c: SizeT, es: seq<Entry>)
    ensures Counter(c, es) == (c + Adds(es) - Deletes(es)) % (SizeMax + 1)
    decreases |es|
  {
    if es != [] {
      var add := es[0].task.AddTask?;
      var c1 := if add then Increment(c) else Decrement(c);
      CounterWraps(c1, es[1..]);
      CountStep(c, c1, add, Adds(es[1..]), Deletes(es[1..]), Adds(es), Deletes(es), Counter(c1, es[1..]));
    } else {
      assert c % (SizeMax + 1) == c;
    }
  }

  /** One task, then the rest: the counter moves by one and then by the balance of the rest. */
  lemma CountStep(c: SizeT, c1: SizeT, add: bool, a1: int, b1: int, a: int, b: int, r: int)
    requires c1 == if add then Increment(c) else Decrement(c)
    requires r == (c1 + a1 - b1) % (SizeMax + 1)
    requires a - b == (if add then 1 else -1) + (a1 - b1)
    ensures r == (c + a - b) % (SizeMax + 1)
  {
    var d := if add then 1 else -1;
    assert c1 == (c + d) % (SizeMax + 1);
    ModShift(c + d, a1 - b1);
  }

  /** Reducing a summand modulo 2^64 first does not change the sum modulo 2^64. */
  lemma ModShift(x: int, y: int)
    ensures (x % (SizeMax + 1) + y) % (SizeMax + 1) == (x + y) % (SizeMax + 1)
  {
    var k := x / (SizeMax + 1);
    assert x == k * (SizeMax + 1) + x % (SizeMax + 1);
    ModAddMultiple(x % (SizeMax + 1) + y, k);
  }

  lemma ModAddMultiple(z: int, k: int)
    ensures (z + k * (SizeMax + 1)) % (SizeMax + 1) == z % (SizeMax + 1)
  {
    var m := SizeMax + 1;
    assert z + k * m == (z / m + k) * m + z % m;
  }

  /** Adds alone, starting from zero, leave the counter at their number. */
  lemma AddsOnlyCount(s: IndexState, es: seq<Entry>)
    requires s.count == 0 && Deletes(es) == 0 && Adds(es) <= SizeMax
    ensures ExecuteAll(s, es).count == Adds(es)
  {
    CountAfterTasks(s, es);
  }
}
