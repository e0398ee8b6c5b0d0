/**
 Writing through retries: `RetryWrapper` (core/src/layers/retry.rs) over
 `CompleteWriter` (core/src/layers/complete.rs).

 The innermost writer is known by the log of the calls it got and whether it
 answered each with success.
 */
module RetryWrite {
  import opened Common
  import opened Retry

  datatype Op = Write(bs: seq<Byte>) | Close | Abort

  datatype Entry = Entry(op: Op, ok: bool) {
    predicate Finishes() { ok && !op.Write? }
  }

  /** `open` tells whether CompleteWriter still holds the innermost writer. */
  datatype Writer = Writer(open: bool, log: seq<Entry>)

  const FINISHED := Error(WriterFinished, Permanent)

  /** One call of CompleteWriter, when the innermost writer answers `a`. */
  function WriteOnce(w: Writer, op: Op, a: Result<()>): (Writer, Result<()>) {
    if !w.open then (w, Err(FINISHED))
    else
      var e := Entry(op, a.Ok?);
      (Writer(!e.Finishes(), w.log + [e]), a)
  }

  class CompleteWriter {
    var open: bool
    ghost var log: seq<Entry>

    ghost function Abs(): Writer
      reads this
    {
      Writer(open, log)
    }

    constructor ()
      ensures Abs() == New()
    {
      open, log := true, [];
    }

    method Put(bs: seq<Byte>, a: Result<()>) returns (r: Result<()>)
      modifies this
      ensures (Abs(), r) == WriteOnce(old(Abs()), Write(bs), a)
    {
      if !open {
        return Err(FINISHED);
      }
      log := log + [Entry(Write(bs), a.Ok?)];
      return a;
    }

    /** close and abort differ only in the call they pass down. */
    method Finish(op: Op, a: Result<()>) returns (r: Result<()>)
      requires !op.Write?
      modifies this
      ensures (Abs(), r) == WriteOnce(old(Abs()), op, a)
    {
      if !open {
        return Err(FINISHED);
      }
      log := log + [Entry(op, a.Ok?)];
      if a.Err? {
        return a;
      }
      open := false;
      return a;
    }
  }

  function New(): Writer { Writer(true, []) }

  // ---------------------------------------------------------------------

  /** A close or abort that succeeded is the last call of all, and CompleteWriter
      lets go of the innermost writer exactly then. */
  ghost predicate OneShot(w: Writer) {
    && (forall j :: 0 <= j < |w.log| && w.log[j].Finishes() ==> j == |w.log| - 1)
    && (w.open <==> forall j :: 0 <= j < |w.log| ==> !w.log[j].Finishes())
  }

  lemma WriteOnceKeepsOneShot(w: Writer, op: Op, a: Result<()>)
    requires OneShot(w)
    ensures OneShot(WriteOnce(w, op, a).0)
  {
    var w' := WriteOnce(w, op, a).0;
    if w.open {
      assert w'.log[|w.log|] == Entry(op, a.Ok?);
      assert forall j :: 0 <= j < |w.log| ==> w'.log[j] == w.log[j];
    }
  }

  lemma {:induction false} AfterKeepsOneShot(w: Writer, op: Op, answers: nat -> Result<()>, k: nat, n: nat)
    requires OneShot(w)
    ensures
      var w' := After(WriteOnce, w, op, answers, k, n);
      OneShot(w') && w.log <= w'.log && |w'.log| <= |w.log| + n
    decreases n
  {
    if n > 0 {
      WriteOnceKeepsOneShot(w, op, answers(k));
      AfterKeepsOneShot(WriteOnce(w, op, answers(k)).0, op, answers, k + 1, n - 1);
    }
  }

  /** One wrapper call adds at most maxTimes + 1 entries, and none at all once
      the writer is finished or the wrapper lost it. */
  lemma CallBudget(maxTimes: nat, w: Wrapper<Writer>, op: Op, env: Env<Result<()>>)
    requires OneShot(w.state)
    ensures
      var w' := Call(WriteOnce, maxTimes, w, op, env).0;
      && OneShot(w'.state) && w.state.log <= w'.state.log
      && |w'.state.log| <= |w.state.log| + maxTimes + 1
      && (!w.present || !w.state.open ==> w'.state == w.state)
  {
    if w.present {
      var o := Loop(WriteOnce, w.state, op, env.answers, 0, maxTimes);
      LoopExactly(WriteOnce, w.state, op, env.answers, 0, maxTimes);
      AfterKeepsOneShot(w.state, op, env.answers, 0, o.attempts);
      if env.cut.Some? && env.cut.value.at < o.attempts {
        var n := env.cut.value.at;
        AfterKeepsOneShot(w.state, op, env.answers, 0, n);
        AfterKeepsOneShot(w.state, op, env.answers, 0, n + 1);
        AfterStep(WriteOnce, w.state, op, env.answers, 0, n);
      }
      if !w.state.open {
        ClosedStays(w.state, op, env.answers, 0, maxTimes);
      }
    }
  }

  lemma ClosedStays(w: Writer, op: Op, answers: nat -> Result<()>, k: nat, retries: nat)
    requires !w.open
    ensures Loop(WriteOnce, w, op, answers, k, retries) == Outcome(w, Err(FINISHED), k + 1)
  {
  }

  /** Over every run, with any failures and any dropped future, the innermost
      writer sees at most one successful close or abort and nothing after it. */
  lemma {:induction false} RunsAreOneShot(maxTimes: nat, run: seq<Request<Op, Result<()>>>)
    ensures
      var log := Final(WriteOnce, maxTimes, Wrapper(true, New()), run).state.log;
      && OneShot(Final(WriteOnce, maxTimes, Wrapper(true, New()), run).state)
      && |log| <= (maxTimes + 1) * |run|
      && (forall j :: 0 <= j < |log| && log[j].Finishes() ==> j == |log| - 1)
  {
    if run != [] {
      var n := |run| - 1;
      RunsAreOneShot(maxTimes, run[..n]);
      CallBudget(maxTimes, Final(WriteOnce, maxTimes, Wrapper(true, New()), run[..n]), run[n].q, run[n].env);
      assert (maxTimes + 1) * |run| == (maxTimes + 1) * n + (maxTimes + 1);
    }
  }

  // ---------------------------------------------------------------------
  // What callers are told.

  /** The entries n attempts with these answers add. */
  function Tries(op: Op, answers: nat -> Result<()>, k: nat, n: nat): seq<Entry> {
    seq(n, i requires 0 <= i < n => Entry(op, answers(k + i).Ok?))
  }

  lemma {:induction false} LoopLogs(w: Writer, op: Op, answers: nat -> Result<()>, k: nat, retries: nat)
    requires w.open
    ensures
      var o := Loop(WriteOnce, w, op, answers, k, retries);
      var n := o.attempts - k;
      && n > 0 && o.result == answers(o.attempts - 1)
      && o.state.log == w.log + Tries(op, answers, k, n)
      && (o.state.open <==> op.Write? || o.result.Err?)
    decreases retries
  {
    var (w', r) := WriteOnce(w, op, answers(k));
    assert Tries(op, answers, k, 1) == [Entry(op, r.Ok?)];
    if Again(r, retries) {
      LoopLogs(w', op, answers, k + 1, retries - 1);
      var n := Loop(WriteOnce, w', op, answers, k + 1, retries - 1).attempts - k - 1;
      assert Tries(op, answers, k, n + 1) == Tries(op, answers, k, 1) + Tries(op, answers, k + 1, n);
      Associate(w.log, Tries(op, answers, k, 1), Tries(op, answers, k + 1, n));
    }
  }

  /** One call that is not dropped, on a writer that is not finished: it passes
      one attempt after the other down and tells what the last one was answered. */
  lemma CallTells(maxTimes: nat, w: Wrapper<Writer>, op: Op, env: Env<Result<()>>)
    requires w.present && Call(WriteOnce, maxTimes, w, op, env).1.Done?
    ensures
      var (w', reply) := Call(WriteOnce, maxTimes, w, op, env);
      && w'.present && reply.Done?
      && if !w.state.open then w' == w && reply.result == Err(Error(WriterFinished, Persistent))
         else
           var n := |w'.state.log| - |w.state.log|;
           && n > 0
           && w'.state.log == w.state.log + Tries(op, env.answers, 0, n)
           && (reply.result.Ok? <==> env.answers(n - 1).Ok?)
           && (reply.result.Err? ==> reply.result.error == Error(env.answers(n - 1).error.cause, Persistent))
           && (w'.state.open <==> op.Write? || reply.result.Err?)
  {
    if w.state.open {
      LoopLogs(w.state, op, env.answers, 0, maxTimes);
      hide Loop;
    } else {
      ClosedStays(w.state, op, env.answers, 0, maxTimes);
    }
  }

  /** Over every run: a close or abort, and a write, is answered Ok if and only if
      this call passed it down and the innermost writer answered its last attempt
      with success; an error keeps the cause of that answer, or says that the writer
      is finished or was lost. */
  lemma RepliesAreTheWriters(maxTimes: nat, run: seq<Request<Op, Result<()>>>)
    requires run != [] && LastReply(WriteOnce, maxTimes, Wrapper(true, New()), run).Done?
    ensures
      var n, last := |run| - 1, run[|run| - 1];
      var w, w' := Final(WriteOnce, maxTimes, Wrapper(true, New()), run[..n]), Final(WriteOnce, maxTimes, Wrapper(true, New()), run);
      var added, told := |w'.state.log| - |w.state.log|, LastReply(WriteOnce, maxTimes, Wrapper(true, New()), run).result;
      && 0 <= added <= maxTimes + 1
      && (told.Ok? <==> added > 0 && w'.state.log[|w'.state.log| - 1] == Entry(last.q, true))
      && (told.Err? ==>
            if added > 0 then last.env.answers(added - 1).Err? && told.error.cause == last.env.answers(added - 1).error.cause
            else if w.present then told.error.cause == WriterFinished && !w.state.open
            else told == Err(BAD_STATE))
  {
    var n, last := |run| - 1, run[|run| - 1];
    RunsAreOneShot(maxTimes, run[..n]);
    var w := Final(WriteOnce, maxTimes, Wrapper(true, New()), run[..n]);
    CallBudget(maxTimes, w, last.q, last.env);
    if w.present {
      CallTells(maxTimes, w, last.q, last.env);
    }
    hide Loop, OneShot, WriteOnce;
  }

  // ---------------------------------------------------------------------

  /** The bytes stored when failed writes have no effect. */
  function Stored(log: seq<Entry>): seq<Byte> {
    if log == [] then []
    else
      var last := log[|log| - 1];
      Stored(log[..|log| - 1]) + if last.ok && last.op.Write? then last.op.bs else []
  }

  /** The buffers whose write was answered Ok, joined. */
  function Acknowledged(maxTimes: nat, run: seq<Request<Op, Result<()>>>): seq<Byte> {
    if run == [] then []
    else
      var before, last := Acknowledged(maxTimes, run[..|run| - 1]), run[|run| - 1];
      match LastReply(WriteOnce, maxTimes, Wrapper(true, New()), run)
      case Done(Ok(_)) => before + Bytes(last.q)
      case _ => before
  }

  function Bytes(op: Op): seq<Byte> { if op.Write? then op.bs else [] }

  lemma StoredStep(w: Writer, op: Op, a: Result<()>)
    ensures
      var (w', r) := WriteOnce(w, op, a);
      Stored(w'.log) == if r.Ok? then Stored(w.log) + Bytes(op) else Stored(w.log)
  {
    if w.open {
      assert (w.log + [Entry(op, a.Ok?)])[..|w.log|] == w.log;
    }
  }

  lemma {:induction false} LoopStores(w: Writer, op: Op, answers: nat -> Result<()>, k: nat, retries: nat)
    ensures
      var o := Loop(WriteOnce, w, op, answers, k, retries);
      && Stored(o.state.log) == (if o.result.Ok? then Stored(w.log) + Bytes(op) else Stored(w.log))
      && (forall n: nat :: n < o.attempts - k ==> Stored(After(WriteOnce, w, op, answers, k, n).log) == Stored(w.log))
    decreases retries
  {
    StoredStep(w, op, answers(k));
    var (w', r) := WriteOnce(w, op, answers(k));
    if Again(r, retries) {
      LoopStores(w', op, answers, k + 1, retries - 1);
      var o := Loop(WriteOnce, w', op, answers, k + 1, retries - 1);
      forall n: nat | n < o.attempts - k
        ensures Stored(After(WriteOnce, w, op, answers, k, n).log) == Stored(w.log)
      {
        if n > 0 {
          assert After(WriteOnce, w, op, answers, k, n) == After(WriteOnce, w', op, answers, k + 1, n - 1);
        }
      }
    }
  }

  /** A call stores its bytes exactly if it is acknowledged; if its future is
      dropped, it stores them or it does not. */
  lemma CallStores(maxTimes: nat, w: Wrapper<Writer>, op: Op, env: Env<Result<()>>)
    ensures
      var (w', reply) := Call(WriteOnce, maxTimes, w, op, env);
      var was, now := Stored(w.state.log), Stored(w'.state.log);
      match reply
      case Done(Ok(_)) => now == was + Bytes(op) && w'.present
      case Done(Err(_)) => now == was && w'.present == w.present
      case Dropped => now in {was, was + Bytes(op)} && !w'.present
      case Panicked => w' == w
  {
    if w.present {
      LoopStores(w.state, op, env.answers, 0, maxTimes);
      LoopExactly(WriteOnce, w.state, op, env.answers, 0, maxTimes);
      if env.cut.Some? {
        var s := After(WriteOnce, w.state, op, env.answers, 0, env.cut.value.at);
        StoredStep(s, op, env.answers(env.cut.value.at));
      }
    }
  }

  /** Call number k of the run was dropped midway. */
  ghost predicate DroppedAt(maxTimes: nat, run: seq<Request<Op, Result<()>>>, k: nat)
    requires k < |run|
  {
    LastReply(WriteOnce, maxTimes, Wrapper(true, New()), run[..k + 1]).Dropped?
  }

  /** Over every run: while no future was dropped, what is stored is exactly
      what was acknowledged; after a drop it may have the dropped write's bytes
      at its end as well, and nothing else. */
  lemma {:induction false} StoredIsAcknowledged(maxTimes: nat, run: seq<Request<Op, Result<()>>>)
    ensures
      var w := Final(WriteOnce, maxTimes, Wrapper(true, New()), run);
      var stored, acked := Stored(w.state.log), Acknowledged(maxTimes, run);
      && (w.present ==> stored == acked)
      && (stored == acked || exists k :: 0 <= k < |run| && DroppedAt(maxTimes, run, k) && stored == acked + Bytes(run[k].q))
  {
    if run != [] {
      var n := |run| - 1;
      StoredIsAcknowledged(maxTimes, run[..n]);
      var w := Final(WriteOnce, maxTimes, Wrapper(true, New()), run[..n]);
      CallStores(maxTimes, w, run[n].q, run[n].env);
      if !w.present {
        var stored, acked := Stored(w.state.log), Acknowledged(maxTimes, run[..n]);
        if stored != acked {
          var k :| 0 <= k < n && DroppedAt(maxTimes, run[..n], k) && stored == acked + Bytes(run[..n][k].q);
          assert run[k] == run[..n][k] && run[..k + 1] == run[..n][..k + 1];
          assert DroppedAt(maxTimes, run, k);
        }
      } else if LastReply(WriteOnce, maxTimes, Wrapper(true, New()), run).Dropped? {
        assert run[..n + 1] == run;
        assert DroppedAt(maxTimes, run, n);
      }
    }
  }
}
