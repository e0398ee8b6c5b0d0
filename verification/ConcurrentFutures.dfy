/**
 The ordered stream of concurrent futures of core/src/raw/futures_util.rs, in
 its forms for one future (Once) and for up to eight (Small).

 A future is known by the time from which it is ready and the output it has
 then; times of successive polls do not decrease. Both forms are shown to behave
 as one queue of futures whose head is handed out once it is ready.
 */
module ConcurrentFutures {
  import opened Common

  const LARGE_THRESHOLD: nat := 8

  datatype Future<T> = Future(id: nat, readyAt: nat, output: T)

  datatype TaskResult<T> = Polling(f: Future<T>) | Ready(output: T)

  datatype Tasks<T> = Once(slot: Option<Future<T>>) | Small(v: seq<TaskResult<T>>)

  datatype Poll<T> = Pending | Item(output: T) | End

  datatype Op<T> = PushBack(f: Future<T>) | PushFront(f: Future<T>) | PollAt(now: nat) | Clear

  function New<T>(concurrent: nat): Tasks<T> { if concurrent < 2 then Once(None) else Small([]) }

  function Len<T>(tasks: Tasks<T>): nat {
    match tasks
    case Once(slot) => if slot.Some? then 1 else 0
    case Small(v) => |v|
  }

  function Advance<T>(task: TaskResult<T>, now: nat): TaskResult<T> {
    if task.Polling? && task.f.readyAt <= now then Ready(task.f.output) else task
  }

  function Sweep<T>(v: seq<TaskResult<T>>, now: nat): seq<TaskResult<T>> {
    seq(|v|, i requires 0 <= i < |v| => Advance(v[i], now))
  }

  function PollNext<T>(tasks: Tasks<T>, now: nat): (Tasks<T>, Poll<T>) {
    match tasks
    case Once(None) => (tasks, End)
    case Once(Some(f)) => if f.readyAt <= now then (Once(None), Item(f.output)) else (tasks, Pending)
    case Small(v) =>
      var w := Sweep(v, now);
      if w == [] then (Small(w), End)
      else if w[0].Polling? then (Small(w), Pending)
      else (Small(w[1..]), Item(w[0].output))
  }

  function Apply<T>(tasks: Tasks<T>, op: Op<T>): (Tasks<T>, Poll<T>) {
    match op
    case PushBack(f) => (if tasks.Once? then Once(Some(f)) else Small(tasks.v + [Polling(f)]), Pending)
    case PushFront(f) => (if tasks.Once? then Once(Some(f)) else Small([Polling(f)] + tasks.v), Pending)
    case PollAt(now) => PollNext(tasks, now)
    case Clear => (if tasks.Once? then Once(None) else Small([]), Pending)
  }

  // ---------------------------------------------------------------------
  // The reference: a queue of futures.

  function ApplyQueue<T>(q: seq<Future<T>>, op: Op<T>): (seq<Future<T>>, Poll<T>) {
    match op
    case PushBack(f) => (q + [f], Pending)
    case PushFront(f) => ([f] + q, Pending)
    case PollAt(now) =>
      if q == [] then (q, End)
      else if q[0].readyAt <= now then (q[1..], Item(q[0].output))
      else (q, Pending)
    case Clear => ([], Pending)
  }

  function Run<T>(concurrent: nat, ops: seq<Op<T>>): (Tasks<T>, Poll<T>) {
    if ops == [] then (New(concurrent), Pending)
    else Apply(Run(concurrent, ops[..|ops| - 1]).0, ops[|ops| - 1])
  }

  function RunQueue<T>(ops: seq<Op<T>>): (seq<Future<T>>, Poll<T>) {
    if ops == [] then ([], Pending)
    else ApplyQueue(RunQueue(ops[..|ops| - 1]).0, ops[|ops| - 1])
  }

  /** The time of the last poll. */
  function Clock<T>(ops: seq<Op<T>>): nat {
    if ops == [] then 0
    else match ops[|ops| - 1]
      case PollAt(now) => now
      case _ => Clock(ops[..|ops| - 1])
  }

  /** What a caller does: push only while there is space, and poll as time goes on. */
  ghost predicate Proper<T>(concurrent: nat, ops: seq<Op<T>>) {
    ops == [] ||
    (var before, last := ops[..|ops| - 1], ops[|ops| - 1];
     && Proper(concurrent, before)
     && match last
        case PushBack(_) => |RunQueue(before).0| < concurrent
        case PushFront(_) => |RunQueue(before).0| < concurrent
        case PollAt(now) => Clock(before) <= now
        case Clear => true)
  }

  /** A queue held in a slot or in a list whose resolved futures were replaced. */
  ghost predicate Holds<T>(tasks: Tasks<T>, q: seq<Future<T>>, now: nat) {
    match tasks
    case Once(slot) => q == if slot.Some? then [slot.value] else []
    case Small(v) =>
      && |v| == |q|
      && forall i :: 0 <= i < |v| ==>
           if v[i].Polling? then v[i].f == q[i] else v[i].output == q[i].output && q[i].readyAt <= now
  }

  lemma SweepHolds<T>(v: seq<TaskResult<T>>, q: seq<Future<T>>, before: nat, now: nat)
    requires Holds(Small(v), q, before) && before <= now
    ensures Holds(Small(Sweep(v, now)), q, now)
    ensures forall i :: 0 <= i < |v| ==> (Sweep(v, now)[i].Polling? <==> now < q[i].readyAt)
  {
    forall i | 0 <= i < |v|
      ensures var t := Sweep(v, now)[i];
        && (if t.Polling? then t.f == q[i] else t.output == q[i].output && q[i].readyAt <= now)
        && (t.Polling? <==> now < q[i].readyAt)
    {
      assert Sweep(v, now)[i] == Advance(v[i], now);
    }
  }

  /** Every future that is ready by now has been driven to its output. */
  ghost predicate Driven<T>(tasks: Tasks<T>, q: seq<Future<T>>, now: nat)
    requires Holds(tasks, q, now)
  {
    tasks.Small? ==> forall i :: 0 <= i < |q| ==> (tasks.v[i].Polling? <==> now < q[i].readyAt)
  }

  lemma ApplyHolds<T>(concurrent: nat, tasks: Tasks<T>, q: seq<Future<T>>, before: nat, op: Op<T>)
    requires Holds(tasks, q, before) && |q| <= concurrent && (tasks.Once? <==> concurrent < 2)
    requires op.PushBack? || op.PushFront? ==> |q| < concurrent
    requires op.PollAt? ==> before <= op.now
    ensures
      var (tasks', r) := Apply(tasks, op);
      var (q', r') := ApplyQueue(q, op);
      && r == r' && (tasks'.Once? <==> concurrent < 2) && |q'| <= concurrent
      && Holds(tasks', q', if op.PollAt? then op.now else before)
      && (op.PollAt? ==> Driven(tasks', q', op.now))
  {
    if op.PollAt? && tasks.Small? {
      SweepHolds(tasks.v, q, before, op.now);
      var w := Sweep(tasks.v, op.now);
      hide Sweep;
      assert |w| == |q|;
    }
  }

  /** Whatever the schedule and the calls, Once and Small answer as the queue
      does, and never hold more than `concurrent` futures, so that the remaining
      space never underflows and a push never overwrites a future. A poll drives
      all futures, not just the head. */
  lemma {:induction false} RunsAreQueues<T>(concurrent: nat, ops: seq<Op<T>>)
    requires Proper(concurrent, ops)
    ensures
      var (tasks, r) := Run(concurrent, ops);
      var (q, r') := RunQueue(ops);
      && r == r' && Holds(tasks, q, Clock(ops)) && (tasks.Once? <==> concurrent < 2)
      && Len(tasks) == |q| <= concurrent
      && (ops != [] && ops[|ops| - 1].PollAt? ==> Driven(tasks, q, Clock(ops)))
  {
    if ops != [] {
      var n := |ops| - 1;
      RunsAreQueues(concurrent, ops[..n]);
      ApplyHolds(concurrent, Run(concurrent, ops[..n]).0, RunQueue(ops[..n]).0, Clock(ops[..n]), ops[n]);
    }
  }

  // ---------------------------------------------------------------------

  class Futures<T> {
    const concurrent: nat
    var tasks: Tasks<T>
    ghost var seen: set<nat>       // futures that were handed over
    ghost var resolved: set<nat>   // futures that have given their output

    /** A future that has given its output is not in the queue to be polled. */
    ghost predicate Valid()
      reads this
    {
      && resolved <= seen
      && (tasks.Once? <==> concurrent < 2) && Len(tasks) <= concurrent
      && match tasks
         case Once(slot) => slot.Some? ==> slot.value.id in seen - resolved
         case Small(v) =>
           && (forall i :: 0 <= i < |v| && v[i].Polling? ==> v[i].f.id in seen - resolved)
           && (forall i, j :: 0 <= i < j < |v| && v[i].Polling? && v[j].Polling? ==> v[i].f.id != v[j].f.id)
    }

    constructor (concurrent: nat)
      requires concurrent <= LARGE_THRESHOLD
      ensures Valid() && this.concurrent == concurrent && tasks == New(concurrent) && seen == {}
    {
      this.concurrent := concurrent;
      tasks := if concurrent < 2 then Once(None) else Small([]);
      seen, resolved := {}, {};
    }

    method Remaining() returns (n: nat)
      requires Valid()
      ensures n + Len(tasks) == concurrent
    {
      n := concurrent - Len(tasks);
    }

    method Push(f: Future<T>, front: bool)
      requires Valid() && Len(tasks) < concurrent && f.id !in seen
      modifies this
      ensures Valid() && tasks == Apply(old(tasks), if front then PushFront(f) else PushBack(f)).0
      ensures seen == old(seen) + {f.id}
    {
      match tasks {
        case Once(_) => tasks := Once(Some(f));
        case Small(v) => tasks := Small(if front then [Polling(f)] + v else v + [Polling(f)]);
      }
      seen := seen + {f.id};
    }

    /** Polling a future again after it was ready is the error to avoid. */
    method PollFuture(f: Future<T>, now: nat) returns (ready: bool)
      requires f.id !in resolved && f.id in seen
      modifies this`resolved
      ensures ready <==> f.readyAt <= now
      ensures resolved == if ready then old(resolved) + {f.id} else old(resolved)
    {
      ready := f.readyAt <= now;
      if ready {
        resolved := resolved + {f.id};
      }
    }

    /** Poll every future that is still polling, and keep what is ready. */
    method PollAll(now: nat)
      requires Valid() && tasks.Small?
      modifies this
      ensures Valid() && seen == old(seen) && tasks == Small(Sweep(old(tasks).v, now))
    {
      ghost var v := tasks.v;
      for i := 0 to |tasks.v|
        invariant Valid() && seen == old(seen) && tasks.Small? && |tasks.v| == |v|
        invariant forall j :: 0 <= j < i ==> tasks.v[j] == Advance(v[j], now)
        invariant forall j :: i <= j < |v| ==> tasks.v[j] == v[j]
      {
        if tasks.v[i].Polling? {
          var f := tasks.v[i].f;
          var ready := PollFuture(f, now);
          if ready {
            tasks := Small(tasks.v[i := Ready(f.output)]);
          }
        }
      }
    }

    method Next(now: nat) returns (r: Poll<T>)
      requires Valid()
      modifies this
      ensures Valid() && seen == old(seen)
      ensures (tasks, r) == PollNext(old(tasks), now)
    {
      match tasks {
        case Once(None) => return End;
        case Once(Some(f)) =>
          var ready := PollFuture(f, now);
          if !ready {
            return Pending;
          }
          tasks := Once(None);
          return Item(f.output);
        case Small(_) =>
          PollAll(now);
          var v := tasks.v;
          if v == [] {
            return End;
          }
          if v[0].Polling? {
            return Pending;
          }
          tasks := Small(v[1..]);
          return Item(v[0].output);
      }
    }
  }
}
