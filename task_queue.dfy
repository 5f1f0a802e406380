/**
 * The bounded task queue: a FIFO of (id, task) entries that refuses new
 * entries once it holds 20, counting each refusal and remembering when the
 * first one happened.
 */
module Queue {
  import opened Wrappers

  /** What an index-mutation task does, in place of the captured closure. */
  datatype Task = AddTask(filename: string, content: string) | DeleteTask(filename: string)

  /** The (id, action) tuple the queue holds. */
  datatype Entry = Entry(id: int, task: Task)

  /** The hard limit on the number of pending entries. */
  const Capacity: nat := 20

  /** A steady_clock time point as a tick count; a default-constructed one is 0. */
  type TimePoint = int

  /** The whole state of a queue: its entries, oldest first, and the overflow accounting. */
  datatype QueueState = QueueState(tasks: seq<Entry>, missingTasks: nat, isFull: bool, fullTime: TimePoint)

  /** A queue as it is constructed. */
  const Fresh := QueueState([], 0, false, 0)

  predicate Bounded(q: QueueState) {
    |q.tasks| <= Capacity
  }

  /** Whether emplace accepts an entry. */
  predicate Accepts(q: QueueState) {
    |q.tasks| < Capacity
  }

  /** The state emplace(e) at time now leaves. */
  function Emplaced(q: QueueState, e: Entry, now: TimePoint): QueueState {
    if |q.tasks| >= Capacity then
      QueueState(q.tasks, q.missingTasks + 1, true, if q.isFull then q.fullTime else now)
    else
      q.(tasks := q.tasks + [e])
  }

  /** The state pop leaves. */
  function Popped(q: QueueState): QueueState {
    if q.tasks == [] then q else q.(tasks := q.tasks[1..])
  }

  /** The state clear leaves. */
  function Cleared(q: QueueState): QueueState {
    q.(tasks := [])
  }

  class TaskQueue {
    /** `m_tasks`, front first */
    var tasks: seq<Entry>
    var missingTasks: nat
    var isFull: bool
    var fullTime: TimePoint

    ghost predicate Valid()
      reads this
    {
      |tasks| <= Capacity
    }

    function State(): QueueState
      reads this
    {
      QueueState(tasks, missingTasks, isFull, fullTime)
    }

    constructor ()
      ensures Valid() && State() == Fresh
    {
      tasks := [];
      missingTasks := 0;
      isFull := false;
      fullTime := 0;
    }

    method Empty() returns (b: bool)
      ensures b <==> |tasks| == 0
    {
      b := tasks == [];
    }

    method Size() returns (n: nat)
      requires Valid()
      ensures n == |tasks| && n <= Capacity
    {
      n := |tasks|;
    }

    /** Pops until empty; the overflow accounting is left alone. */
    method Clear()
      requires Valid()
      modifies this
      ensures Valid() && State() == Cleared(old(State()))
    {
      while tasks != []
        invariant missingTasks == old(missingTasks) && isFull == old(isFull) && fullTime == old(fullTime)
        decreases |tasks|
      {
        tasks := tasks[1..];
      }
    }

    /** The oldest entry, removed, or None (the C++ `false`) on an empty queue. */
    method Pop() returns (popped: Option<Entry>)
      requires Valid()
      modifies this
      ensures Valid() && State() == Popped(old(State()))
      ensures popped == if old(tasks) == [] then None else Some(old(tasks)[0])
    {
      if tasks == [] {
        popped := None;
      } else {
        popped := Some(tasks[0]);
        tasks := tasks[1..];
      }
    }

    /** Appends e if fewer than 20 entries are pending; otherwise counts the refusal. */
    method Emplace(e: Entry, now: TimePoint) returns (accepted: bool)
      requires Valid()
      modifies this
      ensures Valid() && State() == Emplaced(old(State()), e, now)
      ensures accepted == Accepts(old(State()))
    {
      if |tasks| >= Capacity {
        if !isFull {
          isFull := true;
          fullTime := now;
        }
        missingTasks := missingTasks + 1;
        return false;
      }
      tasks := tasks + [e];
      return true;
    }

    method GetMissingTasks() returns (n: nat)
      ensures n == missingTasks
    {
      n := missingTasks;
    }

    method GetFullTime() returns (t: TimePoint)
      ensures t == fullTime
    {
      t := fullTime;
    }
  }

  // ---- single operations ----

  /** emplace on a queue with room appends at the back and touches no counter. */
  lemma EmplaceWithRoom(q: QueueState, e: Entry, now: TimePoint)
    requires Accepts(q)
    ensures Emplaced(q, e, now).tasks == q.tasks + [e]
    ensures Emplaced(q, e, now).missingTasks == q.missingTasks
    ensures Emplaced(q, e, now).isFull == q.isFull && Emplaced(q, e, now).fullTime == q.fullTime
  {
  }

  /**
   * emplace on a full queue keeps the entries, counts one more missing task,
   * and records now as the overflow time only if no overflow was recorded before.
   */
  lemma EmplaceWhenFull(q: QueueState, e: Entry, now: TimePoint)
    requires !Accepts(q)
    ensures Emplaced(q, e, now).tasks == q.tasks
    ensures Emplaced(q, e, now).missingTasks == q.missingTasks + 1
    ensures Emplaced(q, e, now).isFull
    ensures Emplaced(q, e, now).fullTime == if q.isFull then q.fullTime else now
  {
  }

  /** Every operation keeps the queue within its capacity. */
  lemma OperationsBounded(q: QueueState, e: Entry, now: TimePoint)
    requires Bounded(q)
    ensures Bounded(Emplaced(q, e, now)) && Bounded(Popped(q)) && Bounded(Cleared(q))
  {
  }

  // ---- sequences of operations ----

  datatype Op = Push(e: Entry, now: TimePoint) | Take | Drain

  /** The state one operation leaves. */
  function After(q: QueueState, op: Op): QueueState {
    match op
    case Push(e, now) => Emplaced(q, e, now)
    case Take => Popped(q)
    case Drain => Cleared(q)
  }

  /** The entry one operation hands out: the front entry for a successful pop. */
  function HandedOut(q: QueueState, op: Op): seq<Entry> {
    if op.Take? && q.tasks != [] then [q.tasks[0]] else []
  }

  /** The entry one operation admits: the pushed entry when the queue accepts it. */
  function Admits(q: QueueState, op: Op): seq<Entry> {
    if op.Push? && Accepts(q) then [op.e] else []
  }

  /** Running ops in order: the final state, the entries popped and the entries admitted, in order. */
  datatype Trace = Trace(final: QueueState, popped: seq<Entry>, admitted: seq<Entry>)

  function Run(q: QueueState, ops: seq<Op>): Trace
    decreases |ops|
  {
    if ops == [] then Trace(q, [], [])
    else
      var t := Run(After(q, ops[0]), ops[1..]);
      Trace(t.final, HandedOut(q, ops[0]) + t.popped, Admits(q, ops[0]) + t.admitted)
  }

  /** The capacity bound holds after any sequence of operations. */
  lemma {:induction false} RunBounded(q: QueueState, ops: seq<Op>)
    requires Bounded(q)
    ensures Bounded(Run(q, ops).final)
    decreases |ops|
  {
    if ops != [] {
      RunBounded(After(q, ops[0]), ops[1..]);
    }
  }

  /**
   * FIFO: without a clear, the entries popped followed by those still
   * pending are exactly the entries pending at the start followed by those
   * admitted, in order. A refused entry is never popped.
   */
  lemma {:induction false} RunFifo(q: QueueState, ops: seq<Op>)
    requires forall i :: 0 <= i < |ops| ==> !ops[i].Drain?
    ensures Run(q, ops).popped + Run(q, ops).final.tasks == q.tasks + Run(q, ops).admitted
    decreases |ops|
  {
    if ops != [] {
      var q1 := After(q, ops[0]);
      var t := Run(q1, ops[1..]);
      assert Run(q, ops) == Trace(t.final, HandedOut(q, ops[0]) + t.popped, Admits(q, ops[0]) + t.admitted);
      OperationFifo(q, ops[0]);
      RunFifo(q1, ops[1..]);
      Regroup(HandedOut(q, ops[0]), q1.tasks, t.popped, t.final.tasks, q.tasks, Admits(q, ops[0]), t.admitted);
    }
  }

  /** Chaining two steps of the FIFO equation. */
  lemma Regroup(out: seq<Entry>, mid: seq<Entry>, later: seq<Entry>, pending: seq<Entry>,
                start: seq<Entry>, adm: seq<Entry>, admLater: seq<Entry>)
    requires out + mid == start + adm
    requires later + pending == mid + admLater
    ensures (out + later) + pending == start + (adm + admLater)
  {
    calc {
      (out + later) + pending;
      out + (later + pending);
      out + (mid + admLater);
      (out + mid) + admLater;
      (start + adm) + admLater;
    }
  }

  /** One push or pop: what it hands out, followed by what stays pending, is what was pending followed by what it admits. */
  lemma OperationFifo(q: QueueState, op: Op)
    requires !op.Drain?
    ensures HandedOut(q, op) + After(q, op).tasks == q.tasks + Admits(q, op)
  {
    if op.Take? && q.tasks != [] {
      assert [q.tasks[0]] + q.tasks[1..] == q.tasks;
    }
  }

  /**
   * is_full is never reset, not even by clear: once an overflow has been
   * recorded, its time stays as it was through any later operations.
   */
  lemma {:induction false} FullTimeSticky(q: QueueState, ops: seq<Op>)
    requires q.isFull
    ensures Run(q, ops).final.isFull && Run(q, ops).final.fullTime == q.fullTime
    decreases |ops|
  {
    if ops != [] {
      FullTimeSticky(After(q, ops[0]), ops[1..]);
    }
  }

  /** The missing-task counter only ever grows, by one per refused entry. */
  lemma {:induction false} MissingTasksCount(q: QueueState, ops: seq<Op>)
    ensures Run(q, ops).final.missingTasks == q.missingTasks + Refused(q, ops)
    decreases |ops|
  {
    if ops != [] {
      MissingTasksCount(After(q, ops[0]), ops[1..]);
    }
  }

  /** How many of the pushes in ops the queue refuses. */
  function Refused(q: QueueState, ops: seq<Op>): nat
    decreases |ops|
  {
    if ops == [] then 0
    else (if ops[0].Push? && !Accepts(q) then 1 else 0) + Refused(After(q, ops[0]), ops[1..])
  }

  /** Pushes of es with the matching timestamps, in order. */
  function Pushes(es: seq<Entry>, times: seq<TimePoint>): seq<Op>
    requires |es| == |times|
  {
    seq(|es|, i requires 0 <= i < |es| => Push(es[i], times[i]))
  }

  lemma {:induction false} RunAppend(q: QueueState, ops: seq<Op>, op: Op)
    ensures Run(q, ops + [op]).final == After(Run(q, ops).final, op)
    decreases |ops|
  {
    if ops == [] {
      assert ops + [op] == [op];
    } else {
      assert (ops + [op])[1..] == ops[1..] + [op];
      RunAppend(After(q, ops[0]), ops[1..], op);
    }
  }

  /**
   * Pushing n entries into a fresh queue keeps the first 20, counts the
   * n - 20 others as missing, and records as the overflow time the
   * timestamp of the 21st push.
   */
  lemma {:induction false} PushesIntoFresh(es: seq<Entry>, times: seq<TimePoint>)
    requires |es| == |times|
    ensures var f := Run(Fresh, Pushes(es, times)).final;
            && f.tasks == es[..if |es| <= Capacity then |es| else Capacity]
            && f.missingTasks == (if |es| <= Capacity then 0 else |es| - Capacity)
            && f.isFull == (|es| > Capacity)
            && f.fullTime == if |es| <= Capacity then 0 else times[Capacity]
    decreases |es|
  {
    if es != [] {
      var n := |es| - 1;
      var ops := Pushes(es[..n], times[..n]);
      PushesIntoFresh(es[..n], times[..n]);
      PushesSnoc(es, times);
      RunAppend(Fresh, ops, Push(es[n], times[n]));
      var prev := Run(Fresh, ops).final;
      assert Run(Fresh, Pushes(es, times)).final == Emplaced(prev, es[n], times[n]);
      if n < Capacity {
        assert prev.tasks == es[..n];
        assert es[..n] + [es[n]] == es[..n + 1];
      } else {
        assert prev.tasks == es[..n][..Capacity] == es[..Capacity];
      }
    }
  }

  lemma PushesSnoc(es: seq<Entry>, times: seq<TimePoint>)
    requires |es| == |times| > 0
    ensures Pushes(es, times) == Pushes(es[..|es| - 1], times[..|es| - 1]) + [Push(es[|es| - 1], times[|es| - 1])]
  {
  }
}
