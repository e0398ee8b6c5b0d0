/**
 The bounded, order-preserving task queue of core/src/raw/futures_util.rs.

 The background executor and the factory of tasks are the environment. What they
 do during one call is a `Turn`: whether the front task is ready at the first
 and at the second poll of that call, and what the future resolves to if the
 call starts one. Every theorem is for all turns, hence for every schedule.
 */
module ConcurrentTasks {
  import opened Common

  /** A task handle. A handle that has given its value away is `Finished`, and
      polling it again is an error of the caller. */
  datatype Task<I, O> = Running(input: I, outcome: Result<O>) | Finished

  datatype Turn<!I, O> = Turn(first: bool, second: bool, run: I -> Result<O>)

  datatype State<I, O> = State(capacity: nat, tasks: seq<Task<I, O>>, results: seq<O>, errored: bool)

  const TASKS_ERROR := Error(TasksErrored, Permanent)

  function Init<I, O>(capacity: nat): State<I, O> {
    State(capacity, [], [], false)
  }

  /** What holds between calls. */
  ghost predicate Wf<I, O>(s: State<I, O>) {
    && (forall t <- s.tasks :: t.Running?)
    && (if s.capacity > 1 then |s.tasks| <= s.capacity else s.tasks == [])
    && (s.errored ==> s.capacity > 1 && s.tasks == [] && s.results == [])
  }

  function Clear<I, O>(s: State<I, O>): State<I, O> {
    s.(tasks := [], results := [])
  }

  /** The front task failed: start it again or give up for good. */
  function Recover<I, O>(s: State<I, O>, i: I, e: Error, run: I -> Result<O>): State<I, O>
    requires s.tasks != []
  {
    if e.IsTemporary() then s.(tasks := s.tasks[0 := Running(i, run(i))])
    else Clear(s).(errored := true)
  }

  /** The front task resolved: keep its output, or recover from its error. */
  function Settle<I, O>(s: State<I, O>, run: I -> Result<O>): (State<I, O>, Result<()>)
    requires s.tasks != [] && s.tasks[0].Running?
  {
    match s.tasks[0].outcome
    case Ok(o) => (s.(tasks := s.tasks[1..], results := s.results + [o]), Ok(()))
    case Err(e) => (Recover(s, s.tasks[0].input, e, run), Err(e))
  }

  /** Settle the front task if there is one and it is ready. */
  function Poll<I, O>(s: State<I, O>, ready: bool, run: I -> Result<O>): (State<I, O>, Result<()>)
    requires Wf(s)
  {
    if s.tasks != [] && ready then Settle(s, run) else (s, Ok(()))
  }

  function Spawn<I, O>(s: State<I, O>, input: I, run: I -> Result<O>): State<I, O> {
    s.(tasks := s.tasks + [Running(input, run(input))])
  }

  function Execute<I, O>(s: State<I, O>, input: I, turn: Turn<I, O>): (State<I, O>, Result<()>)
    requires Wf(s)
  {
    if s.errored then (s, Err(TASKS_ERROR))
    else if s.capacity <= 1 then
      match turn.run(input)
      case Ok(o) => (s.(results := s.results + [o]), Ok(()))
      case Err(e) => (s, Err(e))
    else
      var (polled, r) := Poll(s, turn.first, turn.run);
      if r.Err? then (polled, r)
      else if |polled.tasks| < s.capacity then (Spawn(polled, input, turn.run), Ok(()))
      else
        var (waited, r') := Settle(polled, turn.run);
        if r'.Err? then (waited, r')
        else
          var (again, r'') := Poll(waited, turn.second, turn.run);
          if r''.Err? then (again, r'') else (Spawn(again, input, turn.run), Ok(()))
  }

  function Next<I, O>(s: State<I, O>, run: I -> Result<O>): (State<I, O>, Option<Result<O>>)
    requires Wf(s)
  {
    if s.errored then (s, Some(Err(TASKS_ERROR)))
    else if s.results != [] then (s.(results := s.results[1..]), Some(Ok(s.results[0])))
    else if s.tasks == [] then (s, None)
    else
      match s.tasks[0].outcome
      case Ok(o) => (s.(tasks := s.tasks[1..]), Some(Ok(o)))
      case Err(e) => (Recover(s, s.tasks[0].input, e, run), Some(Err(e)))
  }

  // ---------------------------------------------------------------------
  // Runs: any sequence of calls, each with any turn of the environment.

  datatype Call<!I, O> = CallExecute(input: I, turn: Turn<I, O>) | CallNext(turn: Turn<I, O>) | CallClear

  datatype Reply<O> = Executed(r: Result<()>) | Fetched(o: Option<Result<O>>) | Cleared

  function Step<I, O>(s: State<I, O>, call: Call<I, O>): (State<I, O>, Reply<O>)
    requires Wf(s)
  {
    match call
    case CallExecute(input, turn) => var (s', r) := Execute(s, input, turn); (s', Executed(r))
    case CallNext(turn) => var (s', o) := Next(s, turn.run); (s', Fetched(o))
    case CallClear => (Clear(s), Cleared)
  }

  lemma StepKeepsWf<I, O>(s: State<I, O>, call: Call<I, O>)
    requires Wf(s)
    ensures Wf(Step(s, call).0) && Step(s, call).0.capacity == s.capacity
  {
  }

  function Final<I, O>(s: State<I, O>, calls: seq<Call<I, O>>): (s': State<I, O>)
    requires Wf(s)
    ensures Wf(s') && s'.capacity == s.capacity
  {
    if calls == [] then s
    else
      var before := Final(s, calls[..|calls| - 1]);
      StepKeepsWf(before, calls[|calls| - 1]);
      Step(before, calls[|calls| - 1]).0
  }

  /** The reply the last call of a run got. */
  function LastReply<I, O>(s: State<I, O>, calls: seq<Call<I, O>>): Reply<O>
    requires Wf(s) && calls != []
  {
    Step(Final(s, calls[..|calls| - 1]), calls[|calls| - 1]).1
  }

  /** The inputs whose `execute` was answered Ok since the last `clear`. */
  ghost function Accepted<I, O>(s: State<I, O>, calls: seq<Call<I, O>>): seq<I>
    requires Wf(s)
  {
    if calls == [] then []
    else
      var before, last, reply := Accepted(s, calls[..|calls| - 1]), calls[|calls| - 1], LastReply(s, calls);
      if last.CallClear? then []
      else if last.CallExecute? && reply.Executed? && reply.r.Ok? then before + [last.input]
      else before
  }

  /** The outputs `next` has handed out since the last `clear`. */
  ghost function Delivered<I, O>(s: State<I, O>, calls: seq<Call<I, O>>): seq<O>
    requires Wf(s)
  {
    if calls == [] then []
    else
      var before, last, reply := Delivered(s, calls[..|calls| - 1]), calls[|calls| - 1], LastReply(s, calls);
      if last.CallClear? then []
      else if reply.Fetched? && reply.o.Some? && reply.o.value.Ok? then before + [reply.o.value.value]
      else before
  }

  /** `works(i, o)`: o is an output the factory may produce for input i. */
  ghost predicate Honest<I(!new), O>(works: (I, O) -> bool, run: I -> Result<O>) {
    forall i {:trigger run(i)} :: run(i).Ok? ==> works(i, run(i).value)
  }

  ghost predicate HonestCall<I(!new), O>(works: (I, O) -> bool, call: Call<I, O>) {
    !call.CallClear? ==> Honest(works, call.turn.run)
  }

  /** The inputs accepted are, in order: those delivered, those whose output
      waits in `results`, and those in flight. */
  ghost predicate Fifo<I, O>(works: (I, O) -> bool, s: State<I, O>, accepted: seq<I>, delivered: seq<O>)
    requires Wf(s)
  {
    var outputs := delivered + s.results;
    && |accepted| == |outputs| + |s.tasks|
    && (forall k :: 0 <= k < |outputs| ==> works(accepted[k], outputs[k]))
    && (forall k :: 0 <= k < |s.tasks| ==>
          && s.tasks[k].input == accepted[|outputs| + k]
          && (s.tasks[k].outcome.Ok? ==> works(s.tasks[k].input, s.tasks[k].outcome.value)))
  }

  lemma SettleKeepsFifo<I(!new), O>(works: (I, O) -> bool, s: State<I, O>, run: I -> Result<O>,
                                    accepted: seq<I>, delivered: seq<O>)
    requires Wf(s) && !s.errored && s.capacity > 1 && s.tasks != [] && Honest(works, run)
    requires Fifo(works, s, accepted, delivered)
    ensures
      var (s', r) := Settle(s, run);
      && Wf(s') && (s'.errored ==> r.Err?)
      && (!s'.errored ==> Fifo(works, s', accepted, delivered))
  {
    if s.tasks[0].outcome.Ok? {
      var o := s.tasks[0].outcome.value;
      assert delivered + (s.results + [o]) == (delivered + s.results) + [o];
    }
  }

  lemma SpawnKeepsFifo<I(!new), O>(works: (I, O) -> bool, s: State<I, O>, input: I, run: I -> Result<O>,
                                   accepted: seq<I>, delivered: seq<O>)
    requires Wf(s) && !s.errored && 1 < s.capacity && |s.tasks| < s.capacity && Honest(works, run)
    requires Fifo(works, s, accepted, delivered)
    ensures Wf(Spawn(s, input, run)) && Fifo(works, Spawn(s, input, run), accepted + [input], delivered)
  {
  }

  lemma InlineKeepsFifo<I(!new), O>(works: (I, O) -> bool, s: State<I, O>, input: I, o: O,
                                    accepted: seq<I>, delivered: seq<O>)
    requires Wf(s) && s.capacity <= 1 && works(input, o)
    requires Fifo(works, s, accepted, delivered)
    ensures Fifo(works, s.(results := s.results + [o]), accepted + [input], delivered)
  {
    assert delivered + (s.results + [o]) == (delivered + s.results) + [o];
  }

  /** A call with room or a ready front: one poll, then the push. */
  lemma RoundKeepsFifo<I(!new), O>(works: (I, O) -> bool, s: State<I, O>, input: I, ready: bool, run: I -> Result<O>,
                                   accepted: seq<I>, delivered: seq<O>)
    requires Wf(s) && !s.errored && s.capacity > 1 && Honest(works, run)
    requires Fifo(works, s, accepted, delivered)
    ensures
      var (s', r) := Poll(s, ready, run);
      && Wf(s') && (s'.errored ==> r.Err?)
      && (!s'.errored ==> Fifo(works, s', accepted, delivered))
      && (r.Ok? && |s'.tasks| < s.capacity ==> Fifo(works, Spawn(s', input, run), accepted + [input], delivered))
  {
    if s.tasks != [] && ready {
      SettleKeepsFifo(works, s, run, accepted, delivered);
    }
    var (s', r) := Poll(s, ready, run);
    if r.Ok? && |s'.tasks| < s.capacity {
      SpawnKeepsFifo(works, s', input, run, accepted, delivered);
    }
  }

  lemma ExecuteKeepsFifo<I(!new), O>(works: (I, O) -> bool, s: State<I, O>, input: I, turn: Turn<I, O>,
                                     accepted: seq<I>, delivered: seq<O>)
    requires Wf(s) && !s.errored && Honest(works, turn.run)
    requires Fifo(works, s, accepted, delivered)
    ensures
      var (s', r) := Execute(s, input, turn);
      && Wf(s')
      && (!s'.errored ==> Fifo(works, s', if r.Ok? then accepted + [input] else accepted, delivered))
  {
    StepKeepsWf(s, CallExecute(input, turn));
    if s.capacity <= 1 {
      if turn.run(input).Ok? {
        InlineKeepsFifo(works, s, input, turn.run(input).value, accepted, delivered);
      }
    } else {
      RoundKeepsFifo(works, s, input, turn.first, turn.run, accepted, delivered);
      var (s1, r1) := Poll(s, turn.first, turn.run);
      if r1.Ok? && |s1.tasks| == s.capacity {
        SettleKeepsFifo(works, s1, turn.run, accepted, delivered);
        var (s2, r2) := Settle(s1, turn.run);
        if r2.Ok? {
          RoundKeepsFifo(works, s2, input, turn.second, turn.run, accepted, delivered);
        }
      }
    }
  }

  lemma NextKeepsFifo<I(!new), O>(works: (I, O) -> bool, s: State<I, O>, run: I -> Result<O>,
                                  accepted: seq<I>, delivered: seq<O>)
    requires Wf(s) && !s.errored && Honest(works, run)
    requires Fifo(works, s, accepted, delivered)
    ensures
      var (s', o) := Next(s, run);
      && Wf(s')
      && (!s'.errored ==>
            Fifo(works, s', accepted, if o.Some? && o.value.Ok? then delivered + [o.value.value] else delivered))
  {
    if s.results != [] {
      assert (delivered + [s.results[0]]) + s.results[1..] == delivered + s.results;
    } else if s.tasks != [] && s.tasks[0].outcome.Ok? {
      var o := s.tasks[0].outcome.value;
      assert (delivered + [o]) + s.results == (delivered + s.results) + [o];
    }
  }

  /** Main theorem: for every capacity, every call sequence and every schedule,
      the queue is a bounded FIFO as seen from its replies alone. */
  lemma {:induction false} RunsAreFifo<I(!new), O>(works: (I, O) -> bool, capacity: nat, calls: seq<Call<I, O>>)
    requires forall c <- calls :: HonestCall(works, c)
    ensures
      var s := Final(Init(capacity), calls);
      && |s.tasks| <= capacity
      && (forall t <- s.tasks :: t.Running?)
      && (s.errored ==> s.tasks == [] && s.results == [])
      && (!s.errored ==>
            Fifo(works, s, Accepted(Init(capacity), calls), Delivered(Init(capacity), calls)))
  {
    var start := Init<I, O>(capacity);
    if calls != [] {
      var n := |calls| - 1;
      RunsAreFifo(works, capacity, calls[..n]);
      var before := Final(start, calls[..n]);
      var accepted, delivered := Accepted(start, calls[..n]), Delivered(start, calls[..n]);
      assert HonestCall(works, calls[n]);
      if !before.errored {
        match calls[n]
        case CallExecute(input, turn) => ExecuteKeepsFifo(works, before, input, turn, accepted, delivered);
        case CallNext(turn) => NextKeepsFifo(works, before, turn.run, accepted, delivered);
        case CallClear =>
      }
    }
  }

  // ---------------------------------------------------------------------
  // What one call does, told from the tasks in flight before it.

  /** How many tasks at the front an `execute` looks at: one if it is found
      ready, and if the queue is full one it waits for and then another if that is
      found ready. */
  function Due<I, O>(s: State<I, O>, turn: Turn<I, O>): (n: nat)
    requires Wf(s) && s.capacity > 1
    ensures n <= |s.tasks|
  {
    if |s.tasks| < s.capacity || turn.first then (if s.tasks != [] && turn.first then 1 else 0)
    else if turn.second then 2 else 1
  }

  /** The first n tasks have succeeded. */
  ghost predicate AllOk<I, O>(s: State<I, O>, n: nat)
    requires Wf(s) && n <= |s.tasks|
  {
    forall k :: 0 <= k < n ==> s.tasks[k].outcome.Ok?
  }

  function Outputs<I, O>(s: State<I, O>, n: nat): seq<O>
    requires n <= |s.tasks| && forall k :: 0 <= k < n ==> s.tasks[k].Running? && s.tasks[k].outcome.Ok?
  {
    seq(n, k requires 0 <= k < n => s.tasks[k].outcome.value)
  }

  /** The queue after task number k, the first to fail, did so: the tasks before
      it gave their outputs, and it is started again or all is given up. */
  ghost predicate FailedAt<I, O>(s: State<I, O>, run: I -> Result<O>, k: nat, e: Error, s': State<I, O>)
    requires Wf(s)
  {
    && k < |s.tasks| && AllOk(s, k) && s.tasks[k].outcome == Err(e)
    && s' == if e.IsTemporary()
             then State(s.capacity, [Running(s.tasks[k].input, run(s.tasks[k].input))] + s.tasks[k + 1..], s.results + Outputs(s, k), false)
             else State(s.capacity, [], [], true)
  }

  /** A concurrent `execute` takes the outputs of the tasks it looks at and
      starts the new one in the background, whatever that will give. It is refused
      exactly if one of those it looks at has failed, with that task's error, and
      then starts nothing new. */
  lemma ExecuteExactly<I, O>(s: State<I, O>, input: I, turn: Turn<I, O>)
    requires Wf(s) && !s.errored && s.capacity > 1
    ensures
      var (s', r) := Execute(s, input, turn);
      var n := Due(s, turn);
      && (r.Ok? <==> AllOk(s, n))
      && (r.Ok? ==>
            s' == State(s.capacity, s.tasks[n..] + [Running(input, turn.run(input))], s.results + Outputs(s, n), false))
      && (r.Err? ==> exists k :: 0 <= k < n && FailedAt(s, turn.run, k, r.error, s'))
  {
    var (s', r) := Execute(s, input, turn);
    var n := Due(s, turn);
    if n == 0 {
      assert Outputs(s, 0) == [];
    } else {
      assert s.tasks[0] in s.tasks;
      var front := s.tasks[0].outcome;
      assert Outputs(s, 0) == [];
      if front.Err? {
        assert s.tasks[0 := Running(s.tasks[0].input, turn.run(s.tasks[0].input))]
            == [Running(s.tasks[0].input, turn.run(s.tasks[0].input))] + s.tasks[1..];
        assert FailedAt(s, turn.run, 0, front.error, s');
      } else {
        assert Outputs(s, 1) == [front.value];
        if n == 2 {
          ExecuteTwo(s, input, turn);
        }
      }
    }
  }

  /** ... when it waits for the front task and finds the next one ready. */
  lemma ExecuteTwo<I, O>(s: State<I, O>, input: I, turn: Turn<I, O>)
    requires Wf(s) && !s.errored && s.capacity > 1 && Due(s, turn) == 2 && s.tasks[0].outcome.Ok?
    ensures
      var (s', r) := Execute(s, input, turn);
      && (r.Ok? <==> s.tasks[1].outcome.Ok?)
      && (r.Ok? ==>
            s' == State(s.capacity, s.tasks[2..] + [Running(input, turn.run(input))], s.results + Outputs(s, 2), false))
      && (r.Err? ==> FailedAt(s, turn.run, 1, r.error, s'))
  {
    var v, next := s.tasks[0].outcome.value, s.tasks[1];
    assert next in s.tasks && s.tasks[1..][0] == next && s.tasks[1..][1..] == s.tasks[2..];
    assert Outputs(s, 1) == [v];
    if next.outcome.Ok? {
      assert Outputs(s, 2) == [v, next.outcome.value];
      assert s.results + [v] + [next.outcome.value] == s.results + [v, next.outcome.value];
    } else {
      var again := Running(next.input, turn.run(next.input));
      assert s.tasks[1..][0 := again] == [again] + s.tasks[2..];
    }
  }

  /** With room and no front task ready, a concurrent `execute` answers Ok
      whatever the new task will give, and one more task is in flight. */
  lemma ExecuteInBackground<I, O>(s: State<I, O>, input: I, turn: Turn<I, O>)
    requires Wf(s) && !s.errored && s.capacity > 1 && |s.tasks| < s.capacity && (s.tasks == [] || !turn.first)
    ensures
      var (s', r) := Execute(s, input, turn);
      && r == Ok(()) && !s'.errored && s'.results == s.results
      && |s'.tasks| == |s.tasks| + 1 && s.tasks <= s'.tasks
      && s'.tasks[|s.tasks|] == Running(input, turn.run(input))
  {
    ExecuteExactly(s, input, turn);
    assert Outputs(s, 0) == [] && s.tasks[0..] == s.tasks;
  }

  /** `next` hands out the oldest output there is, waits for the front task only
      if there is none, and ends exactly if nothing is left. */
  lemma NextExactly<I, O>(s: State<I, O>, run: I -> Result<O>)
    requires Wf(s) && !s.errored
    ensures
      var (s', o) := Next(s, run);
      && (o.None? <==> s.results == [] && s.tasks == [])
      && (o.None? ==> s' == s)
      && (o.Some? && o.value.Ok? ==>
            && s'.errored == s.errored && s'.capacity == s.capacity
            && if s.results != []
               then [o.value.value] + s'.results == s.results && s'.tasks == s.tasks
               else s'.results == [] && s.tasks != [] && s.tasks[0].outcome == o.value && s.tasks[1..] == s'.tasks)
      && (o.Some? && o.value.Err? ==> s.results == [] && FailedAt(s, run, 0, o.value.error, s'))
  {
    if s.results == [] && s.tasks != [] && s.tasks[0].outcome.Err? {
      var front := s.tasks[0];
      assert front in s.tasks;
      assert s.tasks[0 := Running(front.input, run(front.input))] == [Running(front.input, run(front.input))] + s.tasks[1..];
      assert Outputs(s, 0) == [] && s.results + [] == s.results;
    }
  }

  /** An error a concurrent queue answers before it gave up is the outcome of a
      task that was in flight before the call. */
  lemma ErrorsComeFromTasks<I, O>(s: State<I, O>, call: Call<I, O>, e: Error)
    requires Wf(s) && !s.errored && s.capacity > 1
    requires match Step(s, call).1 case Executed(r) => r == Err(e) case Fetched(o) => o == Some(Err(e)) case Cleared => false
    ensures exists k :: 0 <= k < |s.tasks| && s.tasks[k].outcome == Err(e)
  {
    match call
    case CallExecute(input, turn) =>
      ExecuteExactly(s, input, turn);
      var k :| 0 <= k < Due(s, turn) && FailedAt(s, turn.run, k, e, Execute(s, input, turn).0);
      assert s.tasks[k].outcome == Err(e);
    case CallNext(turn) =>
      NextExactly(s, turn.run);
      assert FailedAt(s, turn.run, 0, e, Next(s, turn.run).0);
      assert s.tasks[0].outcome == Err(e);
    case CallClear =>
  }

  /** Without concurrency `execute` runs what it is given itself: the output waits
      in the results, or the error is the answer and nothing changes. */
  lemma ExecuteInline<I, O>(s: State<I, O>, input: I, turn: Turn<I, O>)
    requires Wf(s) && s.capacity <= 1
    ensures
      var (s', r) := Execute(s, input, turn);
      && s'.tasks == [] && !s'.errored
      && (r.Ok? <==> turn.run(input).Ok?)
      && (r.Ok? ==> s'.results == s.results + [turn.run(input).value])
      && (r.Err? ==> turn.run(input) == Err(r.error) && s' == s)
  {
  }

  // ---------------------------------------------------------------------
  // The fatal state.

  /** Exactly when a call makes the queue give up. */
  lemma FatalExactly<I, O>(s: State<I, O>, call: Call<I, O>)
    requires Wf(s) && !s.errored
    ensures
      var (s', reply) := Step(s, call);
      s'.errored <==>
        && s.capacity > 1
        && match reply
           case Executed(r) => r.Err? && !r.error.IsTemporary()
           case Fetched(o) => o.Some? && o.value.Err? && !o.value.error.IsTemporary()
           case Cleared => false
  {
  }

  /** Once errored, no sequence of calls changes the queue and each one errs. */
  lemma {:induction false} FatalIsAbsorbing<I, O>(s: State<I, O>, before: seq<Call<I, O>>, after: seq<Call<I, O>>)
    requires Wf(s) && Final(s, before).errored
    ensures Final(s, before + after) == Final(s, before)
    ensures after != [] ==>
              match after[|after| - 1]
              case CallExecute(_, _) => LastReply(s, before + after) == Executed(Err(TASKS_ERROR))
              case CallNext(_) => LastReply(s, before + after) == Fetched(Some(Err(TASKS_ERROR)))
              case CallClear => LastReply(s, before + after) == Cleared
  {
    if after == [] {
      assert before + after == before;
    } else {
      var n := |after| - 1;
      FatalIsAbsorbing(s, before, after[..n]);
      assert (before + after)[..|before + after| - 1] == before + after[..n];
    }
  }

  // ---------------------------------------------------------------------
  // Progress: what a failing call costs the environment.

  function Failing<I, O>(tasks: seq<Task<I, O>>): nat {
    if tasks == [] then 0
    else (if tasks[0].Running? && tasks[0].outcome.Err? then 1 else 0) + Failing(tasks[1..])
  }

  lemma {:induction false} FailingAppend<I, O>(tasks: seq<Task<I, O>>, t: Task<I, O>)
    ensures Failing(tasks + [t]) == Failing(tasks) + Failing([t])
  {
    if tasks == [] {
      assert tasks + [t] == [t];
    } else {
      FailingAppend(tasks[1..], t);
      assert (tasks + [t])[1..] == tasks[1..] + [t];
    }
  }

  /** Only temporary failures, and none in a future started from turn `bound` on. */
  ghost predicate Benign<I(!new), O>(turns: nat -> Turn<I, O>, bound: nat) {
    forall t: nat, i: I {:trigger turns(t).run(i)} :: turns(t).run(i).Err? ==> t < bound && turns(t).run(i).error.IsTemporary()
  }

  ghost predicate BenignTasks<I, O>(tasks: seq<Task<I, O>>) {
    forall t <- tasks :: t.Running? && (t.outcome.Err? ==> t.outcome.error.IsTemporary())
  }

  /** Failures still to come: those in flight and those the environment may yet start. */
  function Debt<I, O>(s: State<I, O>, t: nat, bound: nat): nat {
    Failing(s.tasks) + if t < bound then bound - t else 0
  }

  lemma SettleDebt<I(!new), O>(s: State<I, O>, turns: nat -> Turn<I, O>, t: nat, bound: nat)
    requires Wf(s) && s.tasks != [] && BenignTasks(s.tasks) && Benign(turns, bound)
    ensures
      var (s', r) := Settle(s, turns(t).run);
      && BenignTasks(s'.tasks) && s'.errored == s.errored
      && (r.Ok? ==> Failing(s'.tasks) == Failing(s.tasks))
      && (r.Err? ==> Debt(s', t + 1, bound) < Debt(s, t, bound))
  {
    var run := turns(t).run;
    var i := s.tasks[0].input;
    assert run(i).Err? ==> t < bound && run(i).error.IsTemporary();
    assert s.tasks[0 := Running(i, run(i))][1..] == s.tasks[1..];
  }

  lemma SpawnDebt<I(!new), O>(s: State<I, O>, input: I, turns: nat -> Turn<I, O>, t: nat, bound: nat)
    requires Wf(s) && BenignTasks(s.tasks) && Benign(turns, bound)
    ensures
      var s' := Spawn(s, input, turns(t).run);
      BenignTasks(s'.tasks) && Debt(s', t + 1, bound) <= Debt(s, t, bound)
  {
    var run := turns(t).run;
    assert run(input).Err? ==> t < bound && run(input).error.IsTemporary();
    FailingAppend(s.tasks, Running(input, run(input)));
    assert Failing([Running(input, run(input))]) <= 1;
  }

  lemma ExecuteDebt<I(!new), O>(s: State<I, O>, input: I, turns: nat -> Turn<I, O>, t: nat, bound: nat)
    requires Wf(s) && !s.errored && BenignTasks(s.tasks) && Benign(turns, bound)
    ensures
      var (s', r) := Execute(s, input, turns(t));
      && !s'.errored && BenignTasks(s'.tasks)
      && Debt(s', t + 1, bound) <= Debt(s, t, bound)
      && (r.Err? ==> Debt(s', t + 1, bound) < Debt(s, t, bound))
  {
    var turn := turns(t);
    if s.capacity <= 1 {
      assert turn.run(input).Err? ==> t < bound;
    } else {
      var (s1, r1) := Poll(s, turn.first, turn.run);
      if s.tasks != [] {
        SettleDebt(s, turns, t, bound);
      }
      if r1.Ok? {
        if |s1.tasks| < s.capacity {
          SpawnDebt(s1, input, turns, t, bound);
        } else {
          var (s2, r2) := Settle(s1, turn.run);
          if r2.Ok? {
            SettleDebt(s2, turns, t, bound);
            var (s3, r3) := Poll(s2, turn.second, turn.run);
            if r3.Ok? {
              SpawnDebt(s3, input, turns, t, bound);
            }
          }
        }
      }
    }
  }

  function Work<I, O>(s: State<I, O>): nat { |s.results| + |s.tasks| }

  lemma NextDebt<I(!new), O>(s: State<I, O>, turns: nat -> Turn<I, O>, t: nat, bound: nat)
    requires Wf(s) && !s.errored && BenignTasks(s.tasks) && Benign(turns, bound)
    ensures
      var (s', o) := Next(s, turns(t).run);
      && !s'.errored && BenignTasks(s'.tasks)
      && (o.None? <==> Work(s) == 0)
      && (o.Some? ==> Debt(s', t + 1, bound) + Work(s') < Debt(s, t, bound) + Work(s))
  {
    if s.results == [] && s.tasks != [] {
      SettleDebt(s, turns, t, bound);
    }
  }

  // ---------------------------------------------------------------------
  // The object itself.

  class TaskQueue<I, O> {
    const capacity: nat
    var tasks: seq<Task<I, O>>
    var results: seq<O>
    var errored: bool

    ghost function Abs(): State<I, O>
      reads this
    {
      State(capacity, tasks, results, errored)
    }

    /** `capacity` is what the allocator gives for `with_capacity(concurrent)`. */
    constructor (capacity: nat)
      ensures Abs() == Init(capacity)
    {
      this.capacity := capacity;
      tasks, results, errored := [], [], false;
    }

    method ClearAll()
      modifies this
      ensures Abs() == Clear(old(Abs()))
    {
      tasks := [];
      results := [];
    }

    /** Take the value out of the front handle, which must not have been taken before. */
    method TakeFront() returns (i: I, o: Result<O>)
      requires tasks != [] && tasks[0].Running?
      modifies this`tasks
      ensures old(tasks)[0] == Running(i, o) && tasks == old(tasks)[0 := Finished]
    {
      i, o := tasks[0].input, tasks[0].outcome;
      tasks := tasks[0 := Finished];
    }

    method RecoverFront(i: I, e: Error, run: I -> Result<O>)
      requires tasks != []
      modifies this
      ensures Abs() == Recover(old(Abs()), i, e, run)
    {
      if e.IsTemporary() {
        tasks := tasks[0 := Running(i, run(i))];
      } else {
        ClearAll();
        errored := true;
      }
    }

    /** Runs the source's loop; `rounds` counts its iterations. */
    method Submit(input: I, turn: Turn<I, O>) returns (r: Result<()>, ghost rounds: nat)
      requires Wf(Abs())
      modifies this
      ensures Wf(Abs())
      ensures Abs() == Execute(old(Abs()), input, turn).0 && r == Execute(old(Abs()), input, turn).1
      ensures rounds <= 2
    {
      ghost var start := Abs();
      StepKeepsWf(start, CallExecute(input, turn));
      rounds := 0;
      if errored {
        return Err(TASKS_ERROR), rounds;
      }
      if capacity <= 1 {
        match turn.run(input) {
          case Ok(o) => results := results + [o]; return Ok(()), rounds;
          case Err(e) => return Err(e), rounds;
        }
      }
      var second := false;
      while true
        invariant Wf(Abs()) && capacity > 1 && !errored
        invariant rounds == (if second then 1 else 0)
        invariant !second ==> Abs() == start
        invariant second ==>
                    && |start.tasks| == capacity
                    && Poll(start, turn.first, turn.run) == (start, Ok(()))
                    && Settle(start, turn.run) == (Abs(), Ok(()))
        decreases 2 - rounds
      {
        rounds := rounds + 1;
        var ready := if second then turn.second else turn.first;
        if tasks != [] && ready {
          var i, o := TakeFront();
          match o {
            case Ok(v) =>
              tasks := tasks[1..];
              results := results + [v];
            case Err(e) =>
              RecoverFront(i, e, turn.run);
              return Err(e), rounds;
          }
        }
        if |tasks| < capacity {
          tasks := tasks + [Running(input, turn.run(input))];
          return Ok(()), rounds;
        }
        var i, o := TakeFront();
        match o {
          case Ok(v) =>
            tasks := tasks[1..];
            results := results + [v];
            second := true;
          case Err(e) =>
            RecoverFront(i, e, turn.run);
            return Err(e), rounds;
        }
      }
    }

    method Fetch(run: I -> Result<O>) returns (o: Option<Result<O>>)
      requires Wf(Abs())
      modifies this
      ensures Wf(Abs())
      ensures Abs() == Next(old(Abs()), run).0 && o == Next(old(Abs()), run).1
    {
      if errored {
        return Some(Err(TASKS_ERROR));
      }
      if results != [] {
        o := Some(Ok(results[0]));
        results := results[1..];
        return;
      }
      if tasks != [] {
        var i, res := TakeFront();
        match res {
          case Ok(v) => tasks := tasks[1..];
          case Err(e) => RecoverFront(i, e, run);
        }
        return Some(res);
      }
      return None;
    }
  }

  /** The queue of a client that meets temporary failures only. */
  ghost predicate Going<I, O>(works: (I, O) -> bool, s: State<I, O>, accepted: seq<I>, delivered: seq<O>) {
    Wf(s) && !s.errored && BenignTasks(s.tasks) && Fifo(works, s, accepted, delivered)
  }

  lemma ExecuteGoes<I(!new), O>(works: (I, O) -> bool, s: State<I, O>, input: I, turns: nat -> Turn<I, O>, t: nat, bound: nat,
                                accepted: seq<I>)
    requires Going(works, s, accepted, []) && Benign(turns, bound) && Honest(works, turns(t).run)
    ensures
      var (s', r) := Execute(s, input, turns(t));
      && Going(works, s', if r.Ok? then accepted + [input] else accepted, [])
      && (r.Err? ==> Debt(s', t + 1, bound) < Debt(s, t, bound))
  {
    ExecuteDebt(s, input, turns, t, bound);
    ExecuteKeepsFifo(works, s, input, turns(t), accepted, []);
    hide Execute, Fifo, Benign, BenignTasks, Debt;
  }

  lemma NextGoes<I(!new), O>(works: (I, O) -> bool, s: State<I, O>, turns: nat -> Turn<I, O>, t: nat, bound: nat,
                             accepted: seq<I>, delivered: seq<O>)
    requires Going(works, s, accepted, delivered) && Benign(turns, bound) && Honest(works, turns(t).run)
    ensures
      var (s', o) := Next(s, turns(t).run);
      && Going(works, s', accepted, if o.Some? && o.value.Ok? then delivered + [o.value.value] else delivered)
      && (o.Some? ==> Debt(s', t + 1, bound) + Work(s') < Debt(s, t, bound) + Work(s))
      && (o.None? ==> Work(s') == 0)
  {
    NextDebt(s, turns, t, bound);
    NextKeepsFifo(works, s, turns(t).run, accepted, delivered);
    hide Fifo, Benign, BenignTasks, Debt;
  }

  lemma GoingIsWf<I, O>(works: (I, O) -> bool, s: State<I, O>, accepted: seq<I>, delivered: seq<O>)
    requires Going(works, s, accepted, delivered)
    ensures Wf(s)
  {
  }

  /** Resubmit one input until it is accepted; calls are counted from `from`. */
  method SubmitOne<I(!new), O>(ghost works: (I, O) -> bool, queue: TaskQueue<I, O>, input: I, ghost accepted: seq<I>,
                               turns: nat -> Turn<I, O>, ghost bound: nat, from: nat)
    returns (t: nat)
    requires Benign(turns, bound) && forall t: nat {:trigger turns(t)} :: Honest(works, turns(t).run)
    requires Going(works, queue.Abs(), accepted, [])
    modifies queue
    ensures Going(works, queue.Abs(), accepted + [input], [])
  {
    hide *;
    t := from;
    while true
      invariant Going(works, queue.Abs(), accepted, [])
      decreases Debt(queue.Abs(), t, bound)
    {
      GoingIsWf(works, queue.Abs(), accepted, []);
      assert Honest(works, turns(t).run);
      ExecuteGoes(works, queue.Abs(), input, turns, t, bound, accepted);
      var r, _ := queue.Submit(input, turns(t));
      t := t + 1;
      if r.Ok? {
        return;
      }
    }
  }

  /** Resubmit every input until it is accepted; t counts the calls. */
  method SubmitAll<I(!new), O>(ghost works: (I, O) -> bool, queue: TaskQueue<I, O>, inputs: seq<I>,
                               turns: nat -> Turn<I, O>, ghost bound: nat)
    returns (t: nat)
    requires Benign(turns, bound) && forall t: nat {:trigger turns(t)} :: Honest(works, turns(t).run)
    requires Going(works, queue.Abs(), [], [])
    modifies queue
    ensures Going(works, queue.Abs(), inputs, [])
  {
    hide *;
    t := 0;
    assert inputs[..0] == [];
    for k := 0 to |inputs|
      invariant Going(works, queue.Abs(), inputs[..k], [])
    {
      assert inputs[..k + 1] == inputs[..k] + [inputs[k]];
      t := SubmitOne(works, queue, inputs[k], inputs[..k], turns, bound, t);
    }
    assert inputs[..|inputs|] == inputs;
  }

  /** Take outputs until there are none. */
  method DrainAll<I(!new), O>(ghost works: (I, O) -> bool, queue: TaskQueue<I, O>, ghost inputs: seq<I>,
                              turns: nat -> Turn<I, O>, ghost bound: nat, from: nat)
    returns (outputs: seq<O>)
    requires Benign(turns, bound) && forall t: nat {:trigger turns(t)} :: Honest(works, turns(t).run)
    requires Going(works, queue.Abs(), inputs, [])
    modifies queue
    ensures Going(works, queue.Abs(), inputs, outputs) && Work(queue.Abs()) == 0
  {
    hide *;
    outputs := [];
    var t, done := from, false;
    while !done
      invariant t >= 0
      invariant Going(works, queue.Abs(), inputs, outputs)
      invariant done ==> Work(queue.Abs()) == 0
      decreases !done, Debt(queue.Abs(), t, bound) + Work(queue.Abs())
    {
      GoingIsWf(works, queue.Abs(), inputs, outputs);
      assert Honest(works, turns(t).run);
      NextGoes(works, queue.Abs(), turns, t, bound, inputs, outputs);
      var o := queue.Fetch(turns(t).run);
      t := t + 1;
      match o {
        case None => done := true;
        case Some(Ok(v)) => outputs := outputs + [v];
        case Some(Err(_)) =>
      }
    }
  }

  /** A client that resubmits every input until it is accepted and then drains
      the queue gets one output per input, in input order, whatever the
      capacity, the schedule and the finite pattern of temporary failures. */
  method SubmitAllThenDrain<I(!new), O>(ghost works: (I, O) -> bool, capacity: nat, inputs: seq<I>,
                                        turns: nat -> Turn<I, O>, ghost bound: nat)
    returns (outputs: seq<O>)
    requires Benign(turns, bound)
    requires forall t: nat {:trigger turns(t)} :: Honest(works, turns(t).run)
    ensures |outputs| == |inputs|
    ensures forall k :: 0 <= k < |inputs| ==> works(inputs[k], outputs[k])
  {
    var queue := new TaskQueue<I, O>(capacity);
    var t := SubmitAll(works, queue, inputs, turns, bound);
    outputs := DrainAll(works, queue, inputs, turns, bound, t);
    assert outputs + queue.results == outputs;
  }
}
