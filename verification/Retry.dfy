/**
 The retry wrapper of core/src/layers/retry.rs, for any inner object.

 The inner object is a value of type S moved into each attempt and handed back,
 as in the source. `attempt(s, q, a)` is one inner call: request q on state s
 when the storage service answers a. One wrapper call is governed by an `Env`:
 the answers to its attempts and, possibly, the point at which the caller drops
 the future. Calls that are not futures, such as a deleter's `delete`, work on the
 inner object in place and unwrap it.
 */
module Retry {
  import opened Common

  const BAD_STATE := Error(BadRetryState, Permanent)

  type Attempt<!S, !Q, !A, R> = (S, Q, A) -> (S, Result<R>)

  /** The future is dropped while attempt number `at` is in progress or about
      to start; `applied` tells whether that attempt still took effect. */
  datatype Cut = Cut(at: nat, applied: bool)

  /** `direct` marks a call that is no future: it cannot be dropped. */
  datatype Env<A> = Env(answers: nat -> A, cut: Option<Cut>, direct: bool)

  datatype Outcome<S, R> = Outcome(state: S, result: Result<R>, attempts: nat)

  /** Whether another attempt follows one that gave r, with `retries` left. */
  predicate Again<R>(r: Result<R>, retries: nat) {
    r.Err? && r.error.IsTemporary() && retries > 0
  }

  function Loop<S, Q, A, R>(attempt: Attempt<S, Q, A, R>, s: S, q: Q, answers: nat -> A, k: nat, retries: nat): Outcome<S, R>
    decreases retries
  {
    var (s', r) := attempt(s, q, answers(k));
    if Again(r, retries) then Loop(attempt, s', q, answers, k + 1, retries - 1)
    else Outcome(s', r, k + 1)
  }

  /** The state after n further attempts, whatever they gave. */
  function After<S, Q, A, R>(attempt: Attempt<S, Q, A, R>, s: S, q: Q, answers: nat -> A, k: nat, n: nat): S
    decreases n
  {
    if n == 0 then s else After(attempt, attempt(s, q, answers(k)).0, q, answers, k + 1, n - 1)
  }

  /** What a call gives its caller: a result, or nothing as it was dropped, or
      the panic of an unwrap. */
  datatype Reply<R> = Done(result: Result<R>) | Dropped | Panicked

  /** `state` is the inner object if present, else what was left when it went. */
  datatype Wrapper<S> = Wrapper(present: bool, state: S)

  /** What the caller sees of the last attempt's result. */
  function Persisted<R>(r: Result<R>): Result<R> {
    match r
    case Ok(v) => Ok(v)
    case Err(e) => Err(e.SetPersistent())
  }

  function Call<S, Q, A, R>(attempt: Attempt<S, Q, A, R>, maxTimes: nat, w: Wrapper<S>, q: Q, env: Env<A>)
    : (Wrapper<S>, Reply<R>)
  {
    if !w.present then (w, if env.direct then Panicked else Done(Err(BAD_STATE)))
    else
      var o := Loop(attempt, w.state, q, env.answers, 0, maxTimes);
      if !env.direct && env.cut.Some? && env.cut.value.at < o.attempts then
        var s := After(attempt, w.state, q, env.answers, 0, env.cut.value.at);
        var s' := if env.cut.value.applied then attempt(s, q, env.answers(env.cut.value.at)).0 else s;
        (Wrapper(false, s'), Dropped)
      else
        (Wrapper(true, o.state),
         Done(Persisted(o.result)))
  }

  /** A request together with what the environment does while it runs. */
  datatype Request<Q, A> = Request(q: Q, env: Env<A>)

  function Final<S, Q, A, R>(attempt: Attempt<S, Q, A, R>, maxTimes: nat, w: Wrapper<S>, run: seq<Request<Q, A>>): Wrapper<S> {
    if run == [] then w
    else
      var last := run[|run| - 1];
      Call(attempt, maxTimes, Final(attempt, maxTimes, w, run[..|run| - 1]), last.q, last.env).0
  }

  function LastReply<S, Q, A, R>(attempt: Attempt<S, Q, A, R>, maxTimes: nat, w: Wrapper<S>, run: seq<Request<Q, A>>): Reply<R>
    requires run != []
  {
    var last := run[|run| - 1];
    Call(attempt, maxTimes, Final(attempt, maxTimes, w, run[..|run| - 1]), last.q, last.env).1
  }

  // ---------------------------------------------------------------------

  /** The result of attempt number n of a loop, counted from its start. */
  function ResultAt<S, Q, A, R>(attempt: Attempt<S, Q, A, R>, s: S, q: Q, answers: nat -> A, k: nat, n: nat): Result<R> {
    attempt(After(attempt, s, q, answers, k, n), q, answers(k + n)).1
  }

  /** The loop makes between one and `retries + 1` attempts; all but the last
      failed with a temporary error; it ends with the last one's result, and it
      ends early only on success or on an error that is not temporary. */
  lemma {:induction false} LoopExactly<S, Q, A, R>(attempt: Attempt<S, Q, A, R>, s: S, q: Q, answers: nat -> A, k: nat, retries: nat)
    ensures
      var o := Loop(attempt, s, q, answers, k, retries);
      var n := o.attempts - k;
      && 1 <= n <= retries + 1
      && o.state == After(attempt, s, q, answers, k, n)
      && o.result == ResultAt(attempt, s, q, answers, k, n - 1)
      && (forall j :: 0 <= j < n - 1 ==>
            && ResultAt(attempt, s, q, answers, k, j).Err?
            && ResultAt(attempt, s, q, answers, k, j).error.IsTemporary())
      && (n <= retries ==> o.result.Ok? || !o.result.error.IsTemporary())
    decreases retries
  {
    var (s', r) := attempt(s, q, answers(k));
    assert After(attempt, s, q, answers, k, 0) == s;
    assert After(attempt, s, q, answers, k, 1) == s';
    if Again(r, retries) {
      LoopExactly(attempt, s', q, answers, k + 1, retries - 1);
      var o := Loop(attempt, s', q, answers, k + 1, retries - 1);
      forall j | 0 < j <= o.attempts - k - 1
        ensures ResultAt(attempt, s, q, answers, k, j) == ResultAt(attempt, s', q, answers, k + 1, j - 1)
      {
        assert After(attempt, s, q, answers, k, j) == After(attempt, s', q, answers, k + 1, j - 1);
      }
    }
  }

  /** With no future dropped, the inner object is back at every call boundary,
      and every reply is the inner object's own: neither the bad-state error nor
      an unwrap can fire. */
  lemma {:induction false} UncutRunsStayGood<S, Q, A, R>(attempt: Attempt<S, Q, A, R>, maxTimes: nat, s: S, run: seq<Request<Q, A>>)
    requires forall r <- run :: r.env.direct || r.env.cut.None?
    ensures
      && Final(attempt, maxTimes, Wrapper(true, s), run).present
      && (run != [] ==>
            exists inner: S ::
              && Final(attempt, maxTimes, Wrapper(true, s), run[..|run| - 1]) == Wrapper(true, inner)
              && LastReply(attempt, maxTimes, Wrapper(true, s), run)
                 == Done(Persisted(Loop(attempt, inner, run[|run| - 1].q, run[|run| - 1].env.answers, 0, maxTimes).result)))
  {
    if run != [] {
      UncutRunsStayGood(attempt, maxTimes, s, run[..|run| - 1]);
      var w := Final(attempt, maxTimes, Wrapper(true, s), run[..|run| - 1]);
      assert run[|run| - 1] in run;
      assert w == Wrapper(true, w.state);
    }
  }

  /** After a future was dropped midway, every later future is refused with the
      bad-state error, every direct call panics, and what is left of the inner
      object is left alone. */
  lemma {:induction false} DroppedIsForever<S, Q, A, R>(attempt: Attempt<S, Q, A, R>, maxTimes: nat, w: Wrapper<S>, before: seq<Request<Q, A>>, after: seq<Request<Q, A>>)
    requires before != [] && LastReply(attempt, maxTimes, w, before).Dropped?
    ensures Final(attempt, maxTimes, w, before + after) == Final(attempt, maxTimes, w, before)
    ensures after != [] ==>
              LastReply(attempt, maxTimes, w, before + after)
              == if after[|after| - 1].env.direct then Panicked else Done(Err(BAD_STATE))
  {
    if after == [] {
      assert before + after == before;
    } else {
      var n := |after| - 1;
      DroppedIsForever(attempt, maxTimes, w, before, after[..n]);
      assert (before + after)[..|before + after| - 1] == before + after[..n];
    }
  }

  /** Some call of the run was dropped midway. */
  ghost predicate SomeDropped<S, Q, A, R>(attempt: Attempt<S, Q, A, R>, maxTimes: nat, w: Wrapper<S>, run: seq<Request<Q, A>>) {
    exists k {:trigger run[..k]} :: 0 < k <= |run| && LastReply(attempt, maxTimes, w, run[..k]).Dropped?
  }

  lemma SomeDroppedSnoc<S, Q, A, R>(attempt: Attempt<S, Q, A, R>, maxTimes: nat, w: Wrapper<S>, run: seq<Request<Q, A>>)
    requires run != []
    ensures SomeDropped(attempt, maxTimes, w, run)
       <==> SomeDropped(attempt, maxTimes, w, run[..|run| - 1]) || LastReply(attempt, maxTimes, w, run).Dropped?
  {
    var n := |run| - 1;
    hide LastReply;
    assert run[..n + 1] == run;
    if SomeDropped(attempt, maxTimes, w, run) {
      var k :| 0 < k <= |run| && LastReply(attempt, maxTimes, w, run[..k]).Dropped?;
      assert k <= n ==> run[..n][..k] == run[..k];
    }
    if SomeDropped(attempt, maxTimes, w, run[..n]) {
      var k :| 0 < k <= n && LastReply(attempt, maxTimes, w, run[..n][..k]).Dropped?;
      assert run[..n][..k] == run[..k];
    }
  }

  lemma {:induction false} PresentExactly<S, Q, A, R>(attempt: Attempt<S, Q, A, R>, maxTimes: nat, s: S, run: seq<Request<Q, A>>)
    ensures Final(attempt, maxTimes, Wrapper(true, s), run).present <==> !SomeDropped(attempt, maxTimes, Wrapper(true, s), run)
  {
    if run != [] {
      PresentExactly(attempt, maxTimes, s, run[..|run| - 1]);
      SomeDroppedSnoc(attempt, maxTimes, Wrapper(true, s), run);
      hide SomeDropped, Loop, After;
    }
  }

  /** A direct call panics, and a future is refused with the bad-state error,
      exactly if an earlier future of the same wrapper was dropped midway. */
  lemma RefusedExactly<S, Q, A, R>(attempt: Attempt<S, Q, A, R>, maxTimes: nat, s: S, run: seq<Request<Q, A>>)
    requires run != []
    ensures
      var reply, direct := LastReply(attempt, maxTimes, Wrapper(true, s), run), run[|run| - 1].env.direct;
      var dropped := SomeDropped(attempt, maxTimes, Wrapper(true, s), run[..|run| - 1]);
      && (reply.Panicked? <==> direct && dropped)
      && (reply == Done(Err(BAD_STATE)) <==> !direct && dropped)
  {
    PresentExactly(attempt, maxTimes, s, run[..|run| - 1]);
    hide SomeDropped, Loop, After;
  }

  /** A loop ends with the first attempt that does not fail with a temporary
      error, if that is among its attempts. */
  lemma FirstDecides<S, Q, A, R>(attempt: Attempt<S, Q, A, R>, s: S, q: Q, answers: nat -> A, retries: nat, n: nat)
    requires n <= retries
    requires forall j: nat :: j < n ==>
               && ResultAt(attempt, s, q, answers, 0, j).Err?
               && ResultAt(attempt, s, q, answers, 0, j).error.IsTemporary()
    requires var r := ResultAt(attempt, s, q, answers, 0, n); r.Ok? || !r.error.IsTemporary()
    ensures
      var o := Loop(attempt, s, q, answers, 0, retries);
      o.attempts == n + 1 && o.result == ResultAt(attempt, s, q, answers, 0, n)
  {
    LoopExactly(attempt, s, q, answers, 0, retries);
    hide Loop, ResultAt;
    var o := Loop(attempt, s, q, answers, 0, retries);
    assert !(o.attempts <= n) && !(o.attempts > n + 1);
  }

  /** A call is dropped midway exactly if the caller lets go of its future during
      an attempt that is made: those before it failed with temporary errors and left
      retries. The inner object is then lost, with the effect of these attempts. */
  lemma DroppedExactly<S, Q, A, R>(attempt: Attempt<S, Q, A, R>, maxTimes: nat, w: Wrapper<S>, q: Q, env: Env<A>)
    ensures
      var (w', reply) := Call(attempt, maxTimes, w, q, env);
      && (reply.Dropped? <==>
            && w.present && !env.direct && env.cut.Some? && env.cut.value.at <= maxTimes
            && forall j: nat :: j < env.cut.value.at ==>
                 && ResultAt(attempt, w.state, q, env.answers, 0, j).Err?
                 && ResultAt(attempt, w.state, q, env.answers, 0, j).error.IsTemporary())
      && (reply.Dropped? ==>
            && !w'.present
            && w'.state == After(attempt, w.state, q, env.answers, 0, if env.cut.value.applied then env.cut.value.at + 1 else env.cut.value.at))
  {
    LoopExactly(attempt, w.state, q, env.answers, 0, maxTimes);
    if env.cut.Some? {
      AfterStep(attempt, w.state, q, env.answers, 0, env.cut.value.at);
    }
    hide Loop, ResultAt, After;
  }

  /** What a caller is told of an attempt: the value, or the cause of the error. */
  ghost predicate Tells<R>(told: Result<R>, r: Result<R>) {
    match r
    case Ok(v) => told == Ok(v)
    case Err(e) => told.Err? && told.error.cause == e.cause
  }

  /** Over every run: a reply that is not a refusal tells of the last attempt of
      this call, value or cause, and no error that is reported is temporary, so
      that a retry layer above does not try again. */
  lemma RepliesTellTheLastAttempt<S, Q, A, R>(attempt: Attempt<S, Q, A, R>, maxTimes: nat, s: S, run: seq<Request<Q, A>>)
    requires run != [] && LastReply(attempt, maxTimes, Wrapper(true, s), run).Done?
    ensures
      var before, last := run[..|run| - 1], run[|run| - 1];
      var w, told := Final(attempt, maxTimes, Wrapper(true, s), before), LastReply(attempt, maxTimes, Wrapper(true, s), run).result;
      && (told.Err? ==> !told.error.IsTemporary())
      && (if SomeDropped(attempt, maxTimes, Wrapper(true, s), before) then told == Err(BAD_STATE)
          else
            && w.present
            && exists n: nat ::
                 && n <= maxTimes
                 && Tells(told, ResultAt(attempt, w.state, last.q, last.env.answers, 0, n))
                 && (forall j: nat :: j < n ==>
                       && ResultAt(attempt, w.state, last.q, last.env.answers, 0, j).Err?
                       && ResultAt(attempt, w.state, last.q, last.env.answers, 0, j).error.IsTemporary())
                 && (n < maxTimes && told.Err? ==> !ResultAt(attempt, w.state, last.q, last.env.answers, 0, n).error.IsTemporary()))
  {
    var before, last := run[..|run| - 1], run[|run| - 1];
    PresentExactly(attempt, maxTimes, s, before);
    hide SomeDropped;
    var w := Final(attempt, maxTimes, Wrapper(true, s), before);
    if w.present {
      LoopExactly(attempt, w.state, last.q, last.env.answers, 0, maxTimes);
      hide Loop, ResultAt, After;
      var n := Loop(attempt, w.state, last.q, last.env.answers, 0, maxTimes).attempts - 1;
      assert Tells(LastReply(attempt, maxTimes, Wrapper(true, s), run).result, ResultAt(attempt, w.state, last.q, last.env.answers, 0, n));
    }
  }

  class RetryWrapper<S, !Q, !A, R> {
    const attempt: Attempt<S, Q, A, R>
    const maxTimes: nat
    var inner: Option<S>
    ghost var remains: S

    ghost function Abs(): Wrapper<S>
      reads this
    {
      match inner
      case Some(s) => Wrapper(true, s)
      case None => Wrapper(false, remains)
    }

    constructor (attempt: Attempt<S, Q, A, R>, maxTimes: nat, inner: S)
      ensures this.attempt == attempt && this.maxTimes == maxTimes && Abs() == Wrapper(true, inner)
    {
      this.attempt, this.maxTimes := attempt, maxTimes;
      this.inner, remains := Some(inner), inner;
    }

    method TakeInner() returns (r: Result<S>)
      modifies this
      ensures inner == None
      ensures r == match old(inner) case Some(s) => Ok(s) case None => Err(BAD_STATE)
      ensures Abs() == Wrapper(false, old(Abs()).state)
    {
      match inner {
        case Some(s) =>
          remains := s;
          inner := None;
          return Ok(s);
        case None =>
          return Err(BAD_STATE);
      }
    }

    /** The futures read, write, close, abort, next and flush are all this
        method. */
    method Invoke(q: Q, env: Env<A>) returns (reply: Reply<R>)
      requires !env.direct
      modifies this
      ensures (Abs(), reply) == Call(attempt, maxTimes, old(Abs()), q, env)
    {
      var taken := TakeInner();
      if taken.Err? {
        return Done(Err(taken.error));
      }
      var s := taken.value;
      ghost var s0 := s;
      ghost var whole := Loop(attempt, s0, q, env.answers, 0, maxTimes);
      var k, retries := 0, maxTimes;
      while true
        invariant 0 <= k && 0 <= retries == maxTimes - k
        invariant inner == None && s == remains
        invariant s == After(attempt, s0, q, env.answers, 0, k)
        invariant Loop(attempt, s, q, env.answers, k, retries) == whole
        invariant env.cut.Some? ==> k <= env.cut.value.at
        decreases retries
      {
        LoopExactly(attempt, s, q, env.answers, k, retries);
        AfterStep(attempt, s0, q, env.answers, 0, k);
        if env.cut.Some? && env.cut.value.at == k {
          if env.cut.value.applied {
            remains := attempt(s, q, env.answers(k)).0;
          }
          return Dropped;
        }
        var (s', r) := attempt(s, q, env.answers(k));
        s, remains := s', s';
        k := k + 1;
        if !Again(r, retries) {
          inner := Some(s);
          return Done(Persisted(r));
        }
        retries := retries - 1;
      }
    }

    /** A deleter's delete and the blocking write, close, next and flush: each
        attempt unwraps the inner object and works on it in place. */
    method InvokeDirect(q: Q, env: Env<A>) returns (reply: Reply<R>)
      requires env.direct
      modifies this
      ensures (Abs(), reply) == Call(attempt, maxTimes, old(Abs()), q, env)
    {
      var k, retries := 0, maxTimes;
      while true
        invariant 0 <= k && 0 <= retries == maxTimes - k
        invariant inner == None ==> old(inner) == None && remains == old(remains)
        invariant inner.Some? ==>
                    && old(inner).Some?
                    && Loop(attempt, inner.value, q, env.answers, k, retries)
                       == Loop(attempt, old(inner).value, q, env.answers, 0, maxTimes)
        decreases retries
      {
        if inner == None {
          return Panicked;
        }
        var (s', r) := attempt(inner.value, q, env.answers(k));
        inner := Some(s');
        k := k + 1;
        if !Again(r, retries) {
          return Done(Persisted(r));
        }
        retries := retries - 1;
      }
    }
  }

  lemma {:induction false} AfterStep<S, Q, A, R>(attempt: Attempt<S, Q, A, R>, s: S, q: Q, answers: nat -> A, k: nat, n: nat)
    ensures After(attempt, s, q, answers, k, n + 1)
         == attempt(After(attempt, s, q, answers, k, n), q, answers(k + n)).0
    decreases n
  {
    if n > 0 {
      AfterStep(attempt, attempt(s, q, answers(k)).0, q, answers, k + 1, n - 1);
    }
  }
}
