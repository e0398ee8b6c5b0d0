/**
 The permits of core/src/layers/concurrent_limit.rs, used by any number of
 clients above the limit layer: retrying readers (core/src/layers/retry.rs),
 writers, listers and deleters, and calls that leave nothing behind.

 A permit is held by the call that acquired it while the service works, and then
 by the object it became part of, until that object is dropped. `hand` counts
 the permits of a client's running call, `slot` tells whether an object is stored
 between calls.
 */
module ConcurrentLimit {
  datatype Kind =
    | Single    // stat and create_dir: the permit ends with the call
    | Keeper    // writer, lister, deleter: a failed call keeps the object
    | Retrying  // RetryReader: a failed read drops the object, the next one reopens

  datatype Phase =
    | Resting   // between calls
    | Looping   // a call has begun: take the stored object, if any
    | Asking    // waiting for a permit
    | Opening   // the service runs the call that was let through
    | Using     // the object taken out is being used
    | Gone      // dropped by its owner, or panicked

  datatype Client = Client(kind: Kind, phase: Phase, slot: bool, hand: nat) {
    function Held(): nat { hand + if slot then 1 else 0 }
  }

  datatype System = System(total: nat, available: nat, clients: seq<Client>)

  datatype Event =
    | Call(i: nat)
    | Take(i: nat)
    | Acquire(i: nat)
    | TryAcquire(i: nat)  // the blocking form, which panics when no permit is left
    | Answer(i: nat, ok: bool)
    | Drop(i: nat)

  function Init(total: nat, kinds: seq<Kind>): System {
    System(total, total, seq(|kinds|, k requires 0 <= k < |kinds| => Client(kinds[k], Resting, false, 0)))
  }

  function Put(s: System, i: nat, c: Client): System
    requires i < |s.clients|
  {
    s.(clients := s.clients[i := c])
  }

  /** Permits that are dropped. */
  function Release(s: System, n: nat): System { s.(available := s.available + n) }

  function GivePermit(s: System, i: nat): System
    requires i < |s.clients| && s.available > 0
  {
    var c := s.clients[i];
    Put(s.(available := s.available - 1), i, c.(phase := Opening, hand := c.hand + 1))
  }

  /** The service has answered the running call of client i. */
  function Answered(s: System, i: nat, ok: bool): System
    requires i < |s.clients| && s.clients[i].hand > 0
  {
    var c := s.clients[i];
    match c.phase
    case Opening =>
      // the permit moves into the object that was opened; without one it is dropped
      if ok && !c.kind.Single?
      then Put(s, i, Client(c.kind, if c.kind.Retrying? then Looping else Resting, true, c.hand - 1))
      else Release(Put(s, i, c.(phase := Resting, hand := c.hand - 1)), 1)
    case Using =>
      // the object is stored again; a retrying reader that failed is dropped
      if ok || !c.kind.Retrying?
      then Put(s, i, Client(c.kind, Resting, true, c.hand - 1))
      else Release(Put(s, i, c.(phase := Resting, hand := c.hand - 1)), 1)
    case _ => s
  }

  /** An event that is not possible changes nothing. */
  function Step(s: System, e: Event): System {
    if e.i >= |s.clients| then s
    else
      var c := s.clients[e.i];
      match e
      case Call(i) => if c.phase.Resting? then Put(s, i, c.(phase := Looping)) else s
      case Take(i) =>
        if !c.phase.Looping? then s
        else if c.slot then Put(s, i, c.(phase := Using, slot := false, hand := c.hand + 1))
        else Put(s, i, c.(phase := Asking))
      case Acquire(i) => if c.phase.Asking? && s.available > 0 then GivePermit(s, i) else s
      case TryAcquire(i) =>
        if !c.phase.Asking? then s
        else if s.available > 0 then GivePermit(s, i)
        else Put(s, i, Client(c.kind, Gone, false, 0))
      case Answer(i, ok) => if c.hand > 0 then Answered(s, i, ok) else s
      case Drop(i) => Release(Put(s, i, Client(c.kind, Gone, false, 0)), c.Held())
  }

  function Run(s: System, events: seq<Event>): System {
    if events == [] then s else Step(Run(s, events[..|events| - 1]), events[|events| - 1])
  }

  // ---------------------------------------------------------------------

  function Held(clients: seq<Client>): nat {
    if clients == [] then 0 else Held(clients[..|clients| - 1]) + clients[|clients| - 1].Held()
  }

  lemma {:induction false} HeldUpdate(clients: seq<Client>, i: nat, c: Client)
    requires i < |clients|
    ensures Held(clients[i := c]) + clients[i].Held() == Held(clients) + c.Held()
  {
    var n := |clients| - 1;
    if i == n {
      assert clients[i := c][..n] == clients[..n];
    } else {
      HeldUpdate(clients[..n], i, c);
      assert clients[i := c][..n] == clients[..n][i := c];
    }
  }

  /** The clients that hold a permit. */
  function Holders(clients: seq<Client>): set<nat> {
    set i: nat | i < |clients| && clients[i].Held() > 0
  }

  /** What a client holds in each phase: never more than one permit, and none
      while it waits for one. */
  predicate ClientOk(c: Client) {
    && (c.kind.Single? ==> !c.slot && !c.phase.Using?)
    && match c.phase
       case Resting => c.hand == 0
       case Looping => c.hand == 0
       case Asking => c.hand == 0 && !c.slot
       case Opening => c.hand == 1 && !c.slot
       case Using => c.hand == 1 && !c.slot
       case Gone => c.hand == 0 && !c.slot
  }

  ghost predicate Inv(s: System) {
    && s.available + Held(s.clients) == s.total
    && forall i :: 0 <= i < |s.clients| ==> ClientOk(s.clients[i])
  }

  lemma HoldersSnoc(clients: seq<Client>, c: Client)
    ensures Holders(clients + [c]) == Holders(clients) + if c.Held() > 0 then {|clients|} else {}
    ensures |clients| !in Holders(clients)
  {
  }

  lemma {:induction false} HeldIsHolders(clients: seq<Client>)
    requires forall i :: 0 <= i < |clients| ==> ClientOk(clients[i])
    ensures Held(clients) == |Holders(clients)|
  {
    if clients != [] {
      var n := |clients| - 1;
      var rest := clients[..n];
      HeldIsHolders(rest);
      HoldersSnoc(rest, clients[n]);
      assert ClientOk(clients[n]) && clients == rest + [clients[n]];
      hide Holders;
    }
  }

  /** A client's next state keeps the invariant if what it let go was released. */
  lemma PutKeepsInv(s: System, i: nat, c: Client, n: nat)
    requires Inv(s) && i < |s.clients| && ClientOk(c) && c.Held() + n == s.clients[i].Held()
    ensures Inv(Release(Put(s, i, c), n))
  {
    HeldUpdate(s.clients, i, c);
  }

  lemma GivePermitKeepsInv(s: System, i: nat)
    requires Inv(s) && i < |s.clients| && s.clients[i].phase.Asking? && s.available > 0
    ensures Inv(GivePermit(s, i))
  {
    var c := s.clients[i];
    assert ClientOk(c);
    HeldUpdate(s.clients, i, c.(phase := Opening, hand := c.hand + 1));
  }

  lemma AnsweredKeepsInv(s: System, i: nat, ok: bool)
    requires Inv(s) && i < |s.clients| && s.clients[i].hand > 0
    ensures Inv(Answered(s, i, ok))
  {
    var c := s.clients[i];
    assert ClientOk(c);
    var stays := if c.phase.Opening? then ok && !c.kind.Single? else ok || !c.kind.Retrying?;
    var phase := if c.phase.Opening? && stays && c.kind.Retrying? then Looping else Resting;
    PutKeepsInv(s, i, Client(c.kind, phase, stays, 0), if stays then 0 else 1);
  }

  lemma StepKeepsInv(s: System, e: Event)
    requires Inv(s)
    ensures Inv(Step(s, e))
  {
    if e.i < |s.clients| {
      var c := s.clients[e.i];
      assert ClientOk(c);
      match e
      case Call(i) =>
        if c.phase.Resting? { PutKeepsInv(s, i, c.(phase := Looping), 0); }
      case Take(i) =>
        if c.phase.Looping? {
          PutKeepsInv(s, i, if c.slot then Client(c.kind, Using, false, 1) else Client(c.kind, Asking, false, 0), 0);
        }
      case Acquire(i) =>
        if c.phase.Asking? && s.available > 0 { GivePermitKeepsInv(s, i); }
      case TryAcquire(i) =>
        if c.phase.Asking? {
          if s.available > 0 { GivePermitKeepsInv(s, i); } else { PutKeepsInv(s, i, Client(c.kind, Gone, false, 0), 0); }
        }
      case Answer(i, ok) =>
        if c.hand > 0 { AnsweredKeepsInv(s, i, ok); }
      case Drop(i) => PutKeepsInv(s, i, Client(c.kind, Gone, false, 0), c.Held());
    }
  }

  /** In every run permits are conserved: those available and those held by
      running calls and live objects, at most one each, add up to the
      configured number. */
  lemma {:induction false} PermitsConserved(total: nat, kinds: seq<Kind>, events: seq<Event>)
    ensures
      var s := Run(Init(total, kinds), events);
      && Inv(s) && s.total == total && |s.clients| == |kinds|
      && s.available + Held(s.clients) == total
      && Held(s.clients) == |Holders(s.clients)|
  {
    var s := Run(Init(total, kinds), events);
    if events == [] {
      assert Holders(s.clients) == {};
    } else {
      var before := events[..|events| - 1];
      PermitsConserved(total, kinds, before);
      StepKeepsInv(Run(Init(total, kinds), before), events[|events| - 1]);
    }
    HeldIsHolders(s.clients);
  }

  /** Whether client i, now c, has an object after this event, if it had one
      before or not: an object comes with a successful opening and goes with its
      owner or, for a retrying reader, with a read that fails. */
  predicate StillAlive(c: Client, i: nat, e: Event, alive: bool) {
    if e.i != i then alive
    else match e
      case Answer(_, ok) =>
        if c.phase.Opening? then ok && !c.kind.Single?
        else alive && (c.phase.Using? && !ok ==> !c.kind.Retrying?)
      case Drop(_) => false
      case _ => alive
  }

  ghost predicate Alive(total: nat, kinds: seq<Kind>, events: seq<Event>, i: nat) {
    events != [] &&
    var before, last := events[..|events| - 1], events[|events| - 1];
    var s := Run(Init(total, kinds), before);
    i < |s.clients| && StillAlive(s.clients[i], i, last, Alive(total, kinds, before, i))
  }

  /** What a client with or without an object holds. */
  ghost predicate HoldsFor(c: Client, alive: bool) {
    && c.Held() == (if c.phase.Opening? || alive then 1 else 0)
    && (alive ==> c.phase.Resting? || c.phase.Looping? || c.phase.Using?)
  }

  lemma StepHolds(s: System, e: Event, i: nat, alive: bool)
    requires i < |s.clients| && ClientOk(s.clients[i]) && HoldsFor(s.clients[i], alive)
    ensures |Step(s, e).clients| == |s.clients| && Step(s, e).clients[i].kind == s.clients[i].kind
    ensures HoldsFor(Step(s, e).clients[i], StillAlive(s.clients[i], i, e, alive))
  {
  }

  /** A client holds a permit, and then exactly one, exactly while the service
      runs a call it let through or an object it opened is alive. */
  lemma {:induction false} HoldsExactly(total: nat, kinds: seq<Kind>, events: seq<Event>, i: nat)
    requires i < |kinds|
    ensures
      var s, alive := Run(Init(total, kinds), events), Alive(total, kinds, events, i);
      && |s.clients| == |kinds| && s.clients[i].kind == kinds[i]
      && s.clients[i].Held() == (if s.clients[i].phase.Opening? || alive then 1 else 0)
      && (alive ==> s.clients[i].phase.Resting? || s.clients[i].phase.Looping? || s.clients[i].phase.Using?)
  {
    if events != [] {
      var before, last := events[..|events| - 1], events[|events| - 1];
      PermitsConserved(total, kinds, before);
      HoldsExactly(total, kinds, before, i);
      var s := Run(Init(total, kinds), before);
      assert ClientOk(s.clients[i]);
      StepHolds(s, last, i, Alive(total, kinds, before, i));
      assert Run(Init(total, kinds), events) == Step(s, last);
      hide Run, Held, Holders, Step, StillAlive, Inv;
    }
  }

  /** From rest, with a permit left, a call gets to the service, and its answer
      leaves an object that holds the permit, or gives the permit back. */
  lemma CallOpens(s: System, i: nat, ok: bool)
    requires Inv(s) && i < |s.clients| && s.available > 0
    requires s.clients[i].phase.Resting? && !s.clients[i].slot
    ensures
      var opening := Step(Step(Step(s, Call(i)), Take(i)), Acquire(i));
      var s' := Step(opening, Answer(i, ok));
      && opening.clients[i].phase.Opening? && opening.available == s.available - 1
      && (if ok && !s.clients[i].kind.Single?
          then s'.clients[i].Held() == 1 && s'.available == s.available - 1
          else s'.clients[i].Held() == 0 && s'.available == s.available)
      && (s'.clients[i].phase == if ok && s.clients[i].kind.Retrying? then Looping else Resting)
  {
    assert ClientOk(s.clients[i]);
  }

  /** With an object, a call uses it and asks for no permit; its answer keeps the
      object, unless a retrying reader failed, which gives the permit back. */
  lemma CallUses(s: System, i: nat, ok: bool)
    requires Inv(s) && i < |s.clients| && s.clients[i].slot
    requires s.clients[i].phase.Resting?
    ensures
      var using := Step(Step(s, Call(i)), Take(i));
      var s' := Step(using, Answer(i, ok));
      && using.clients[i].phase.Using? && using.available == s.available
      && s'.clients[i].phase.Resting?
      && (if ok || !s.clients[i].kind.Retrying?
          then s'.clients[i].slot && s'.available == s.available
          else s'.clients[i].Held() == 0 && s'.available == s.available + 1)
  {
    assert ClientOk(s.clients[i]);
  }

  /** When a client waits, it holds nothing, and it is let through exactly if
      fewer clients than the limit hold a permit, all of them others. So a reader
      that reopens cannot block on itself, even with a limit of one. */
  lemma LetThroughExactly(total: nat, kinds: seq<Kind>, events: seq<Event>, i: nat)
    requires
      var s := Run(Init(total, kinds), events);
      i < |s.clients| && s.clients[i].phase.Asking?
    ensures
      var s := Run(Init(total, kinds), events);
      && i !in Holders(s.clients)
      && (|Holders(s.clients)| < total <==> Step(s, Acquire(i)).clients[i].phase.Opening?)
      && (|Holders(s.clients)| < total <==> !Step(s, TryAcquire(i)).clients[i].phase.Gone?)
  {
    PermitsConserved(total, kinds, events);
    assert ClientOk(Run(Init(total, kinds), events).clients[i]);
  }

  /** While a client waits and no permit is left, some other client holds one and
      is not itself waiting. (One owner of both may still block itself.) */
  lemma SomeHolderIsNotWaiting(total: nat, kinds: seq<Kind>, events: seq<Event>, i: nat) returns (j: nat)
    requires total > 0
    requires
      var s := Run(Init(total, kinds), events);
      i < |s.clients| && s.clients[i].phase.Asking? && s.available == 0
    ensures
      var s := Run(Init(total, kinds), events);
      && j < |s.clients| && j != i && s.clients[j].Held() == 1
      && !s.clients[j].phase.Asking? && !s.clients[j].phase.Gone?
  {
    PermitsConserved(total, kinds, events);
    var s := Run(Init(total, kinds), events);
    assert Holders(s.clients) != {};
    j :| j in Holders(s.clients);
    assert ClientOk(s.clients[j]) && ClientOk(s.clients[i]);
  }

  /** Nothing leaks: once no call runs and no object is stored, all permits are
      available, whatever failed, panicked or was dropped before. */
  lemma NoPermitLeaks(total: nat, kinds: seq<Kind>, events: seq<Event>)
    requires
      var s := Run(Init(total, kinds), events);
      forall i :: 0 <= i < |s.clients| ==> !s.clients[i].slot && (s.clients[i].phase.Resting? || s.clients[i].phase.Gone?)
    ensures Run(Init(total, kinds), events).available == total
  {
    PermitsConserved(total, kinds, events);
    var s := Run(Init(total, kinds), events);
    assert forall i :: 0 <= i < |s.clients| ==> ClientOk(s.clients[i]) && s.clients[i].Held() == 0;
    assert Holders(s.clients) == {};
  }
}
