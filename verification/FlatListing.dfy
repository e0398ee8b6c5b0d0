/**
 Recursive listing emulated by walking directories: `FlatLister`
 (core/src/raw/oio/list/flat_list.rs), over any service.

 `ls(d)` is what the service lists for directory d, in whatever order it has.
 The service may fail at any call to list a directory, and at any fetch of the
 next entry of one.
 */
module FlatListing {
  import opened Common
  import opened Paths

  type Listing = string -> seq<string>

  /** Directories listed in a directory, itself apart, are longer than it and
      bounded in length: the walk comes to an end. */
  ghost predicate Tame(ls: Listing, bound: nat) {
    forall d, e {:trigger e in ls(d)} :: e in ls(d) && IsDir(e) && e != d ==> |d| < |e| <= bound
  }

  ghost function Depth(bound: nat, d: string): nat { if |d| <= bound then bound - |d| + 1 else 0 }

  /** The simple form of the walk: everything below a directory, then itself. */
  ghost function Flat(ls: Listing, bound: nat, d: string): seq<string>
    requires Tame(ls, bound)
    decreases Depth(bound, d), |ls(d)| + 1
  {
    FlatEntries(ls, bound, d, ls(d)) + [d]
  }

  ghost function FlatEntry(ls: Listing, bound: nat, d: string, e: string): seq<string>
    requires Tame(ls, bound) && e in ls(d)
    decreases Depth(bound, d), 0
  {
    if !IsDir(e) then [e] else if e == d then [] else Flat(ls, bound, e)
  }

  ghost function FlatEntries(ls: Listing, bound: nat, d: string, es: seq<string>): seq<string>
    requires Tame(ls, bound) && forall e <- es :: e in ls(d)
    decreases Depth(bound, d), |es|
  {
    if es == [] then [] else FlatEntry(ls, bound, d, es[0]) + FlatEntries(ls, bound, d, es[1..])
  }

  // ---------------------------------------------------------------------
  // The walk when listings fail.

  /** How listing call number j goes, if it is for directory d. */
  type Failures = (nat, string) -> Option<Error>

  /** Listing call number j fails with this error. */
  ghost predicate ListingFailed(fails: Failures, j: nat, e: Error) { exists d :: fails(j, d) == Some(e) }

  /** What is left of the walk of d when its first listing is call number j: a
      directory whose listing fails goes with everything below it. The second
      part is the number of the call that comes next. */
  ghost function Pruned(ls: Listing, bound: nat, fails: Failures, j: nat, d: string): (seq<string>, nat)
    requires Tame(ls, bound)
    decreases Depth(bound, d), |ls(d)| + 1
  {
    if fails(j, d).Some? then ([], j + 1)
    else
      var (es, next) := PrunedEntries(ls, bound, fails, j + 1, d, ls(d));
      (es + [d], next)
  }

  ghost function PrunedEntry(ls: Listing, bound: nat, fails: Failures, j: nat, d: string, e: string): (seq<string>, nat)
    requires Tame(ls, bound) && e in ls(d)
    decreases Depth(bound, d), 0
  {
    if !IsDir(e) then ([e], j) else if e == d then ([], j) else Pruned(ls, bound, fails, j, e)
  }

  ghost function PrunedEntries(ls: Listing, bound: nat, fails: Failures, j: nat, d: string, es: seq<string>): (seq<string>, nat)
    requires Tame(ls, bound) && forall e <- es :: e in ls(d)
    decreases Depth(bound, d), |es|
  {
    if es == [] then ([], j)
    else
      var (first, k) := PrunedEntry(ls, bound, fails, j, d, es[0]);
      var (rest, next) := PrunedEntries(ls, bound, fails, k, d, es[1..]);
      (first + rest, next)
  }

  /** The directories a walk without failures lists, in the order of the calls. */
  ghost function Opened(ls: Listing, bound: nat, d: string): seq<string>
    requires Tame(ls, bound)
    decreases Depth(bound, d), |ls(d)| + 1
  {
    [d] + OpenedEntries(ls, bound, d, ls(d))
  }

  ghost function OpenedEntry(ls: Listing, bound: nat, d: string, e: string): seq<string>
    requires Tame(ls, bound) && e in ls(d)
    decreases Depth(bound, d), 0
  {
    if IsDir(e) && e != d then Opened(ls, bound, e) else []
  }

  ghost function OpenedEntries(ls: Listing, bound: nat, d: string, es: seq<string>): seq<string>
    requires Tame(ls, bound) && forall e <- es :: e in ls(d)
    decreases Depth(bound, d), |es|
  {
    if es == [] then [] else OpenedEntry(ls, bound, d, es[0]) + OpenedEntries(ls, bound, d, es[1..])
  }

  /** None of these listings, made one after the other from call j on, fails. */
  ghost predicate Clear(fails: Failures, j: nat, dirs: seq<string>) {
    forall i :: 0 <= i < |dirs| ==> fails(j + i, dirs[i]).None?
  }

  lemma ClearConcat(fails: Failures, j: nat, a: seq<string>, b: seq<string>)
    ensures Clear(fails, j, a + b) <==> Clear(fails, j, a) && Clear(fails, j + |a|, b)
  {
    if Clear(fails, j, a + b) {
      forall i | 0 <= i < |a|
        ensures fails(j + i, a[i]).None?
      {
        assert (a + b)[i] == a[i];
      }
      forall i | 0 <= i < |b|
        ensures fails(j + |a| + i, b[i]).None?
      {
        assert (a + b)[|a| + i] == b[i];
      }
    }
  }

  /** A part of a pruned walk against the same part of the whole walk: all of it
      exactly if no listing on the way fails, and shorter otherwise. */
  ghost predicate Against(fails: Failures, j: nat, dirs: seq<string>, part: (seq<string>, nat), whole: seq<string>) {
    if Clear(fails, j, dirs) then part == (whole, j + |dirs|) else |part.0| < |whole|
  }

  lemma AgainstConcat(fails: Failures, j: nat, dirs1: seq<string>, part1: (seq<string>, nat), whole1: seq<string>,
                      dirs2: seq<string>, part2: (seq<string>, nat), whole2: seq<string>)
    requires Against(fails, j, dirs1, part1, whole1) && Against(fails, part1.1, dirs2, part2, whole2)
    ensures Against(fails, j, dirs1 + dirs2, (part1.0 + part2.0, part2.1), whole1 + whole2)
  {
    ClearConcat(fails, j, dirs1, dirs2);
    hide Clear;
  }

  lemma {:induction false} PrunedAgainst(ls: Listing, bound: nat, fails: Failures, j: nat, d: string)
    requires Tame(ls, bound)
    ensures Against(fails, j, Opened(ls, bound, d), Pruned(ls, bound, fails, j, d), Flat(ls, bound, d))
    decreases Depth(bound, d), |ls(d)| + 1
  {
    PrunedEntriesAgainst(ls, bound, fails, j + 1, d, ls(d));
    ClearConcat(fails, j, [d], OpenedEntries(ls, bound, d, ls(d)));
    assert Clear(fails, j, [d]) <==> fails(j, d).None? by {
      assert [d][0] == d && j + 0 == j;
    }
    hide Clear;
  }

  lemma {:induction false} PrunedEntriesAgainst(ls: Listing, bound: nat, fails: Failures, j: nat, d: string, es: seq<string>)
    requires Tame(ls, bound) && forall e <- es :: e in ls(d)
    ensures Against(fails, j, OpenedEntries(ls, bound, d, es), PrunedEntries(ls, bound, fails, j, d, es), FlatEntries(ls, bound, d, es))
    decreases Depth(bound, d), |es|
  {
    if es != [] {
      var e, rest := es[0], es[1..];
      assert e in es;
      if IsDir(e) && e != d {
        PrunedAgainst(ls, bound, fails, j, e);
      }
      var first := PrunedEntry(ls, bound, fails, j, d, e);
      PrunedEntriesAgainst(ls, bound, fails, first.1, d, rest);
      assert Against(fails, j, OpenedEntry(ls, bound, d, e), first, FlatEntry(ls, bound, d, e));
      AgainstConcat(
        fails, j,
        OpenedEntry(ls, bound, d, e), first, FlatEntry(ls, bound, d, e),
        OpenedEntries(ls, bound, d, rest), PrunedEntries(ls, bound, fails, first.1, d, rest), FlatEntries(ls, bound, d, rest));
    }
  }

  /** The pruned walk is the whole walk exactly if no directory on the way fails
      to be listed. */
  lemma WholeExactly(ls: Listing, bound: nat, fails: Failures, d: string)
    requires Tame(ls, bound)
    ensures Pruned(ls, bound, fails, 0, d).0 == Flat(ls, bound, d) <==> Clear(fails, 0, Opened(ls, bound, d))
  {
    PrunedAgainst(ls, bound, fails, 0, d);
  }

  /** The pruned walk is empty, although the whole walk never is, exactly if the
      very first listing fails. */
  lemma RetryFindsNothing(ls: Listing, bound: nat, fails: Failures, d: string)
    requires Tame(ls, bound)
    ensures Pruned(ls, bound, fails, 0, d).0 == [] <==> fails(0, d).Some?
    ensures Flat(ls, bound, d) != []
  {
  }

  // ---------------------------------------------------------------------
  // The steps a walk takes.

  ghost function Cost(ls: Listing, bound: nat, d: string): nat
    requires Tame(ls, bound)
    decreases Depth(bound, d), |ls(d)| + 1
  {
    2 + CostEntries(ls, bound, d, ls(d))
  }

  ghost function CostEntry(ls: Listing, bound: nat, d: string, e: string): nat
    requires Tame(ls, bound) && e in ls(d)
    decreases Depth(bound, d), 0
  {
    if IsDir(e) && e != d then Cost(ls, bound, e) else 0
  }

  ghost function CostEntries(ls: Listing, bound: nat, d: string, es: seq<string>): nat
    requires Tame(ls, bound) && forall e <- es :: e in ls(d)
    decreases Depth(bound, d), |es|
  {
    if es == [] then 0 else 1 + CostEntry(ls, bound, d, es[0]) + CostEntries(ls, bound, d, es[1..])
  }

  // ---------------------------------------------------------------------
  // The lister: a directory to open next and a stack of open directories.

  /** An open directory; `de` goes once it has been handed out. */
  datatype Frame = Frame(de: Option<string>, rest: seq<string>)

  ghost predicate FrameOk(ls: Listing, f: Frame) {
    match f.de
    case None => f.rest == []
    case Some(d) => forall e <- f.rest :: e in ls(d)
  }

  ghost predicate StackOk(ls: Listing, active: seq<Frame>) {
    && (forall k :: 0 <= k < |active| ==> FrameOk(ls, active[k]))
    && (forall k :: 0 <= k < |active| - 1 ==> active[k].de.Some?)
  }

  ghost function Left(ls: Listing, bound: nat, fails: Failures, j: nat, f: Frame): (seq<string>, nat)
    requires Tame(ls, bound) && FrameOk(ls, f)
  {
    match f.de
    case None => ([], j)
    case Some(d) =>
      var (es, next) := PrunedEntries(ls, bound, fails, j, d, f.rest);
      (es + [d], next)
  }

  /** What the open directories still have to give, the innermost first, when
      the next listing is call number j. */
  ghost function StackLeft(ls: Listing, bound: nat, fails: Failures, j: nat, active: seq<Frame>): seq<string>
    requires Tame(ls, bound) && StackOk(ls, active)
    decreases |active|
  {
    if active == [] then []
    else
      var (top, next) := Left(ls, bound, fails, j, active[|active| - 1]);
      top + StackLeft(ls, bound, fails, next, active[..|active| - 1])
  }

  ghost function Pending(ls: Listing, bound: nat, fails: Failures, j: nat, nextDir: Option<string>, active: seq<Frame>): seq<string>
    requires Tame(ls, bound) && StackOk(ls, active)
  {
    match nextDir
    case None => StackLeft(ls, bound, fails, j, active)
    case Some(d) =>
      var (part, next) := Pruned(ls, bound, fails, j, d);
      part + StackLeft(ls, bound, fails, next, active)
  }

  ghost function FrameCost(ls: Listing, bound: nat, f: Frame): nat
    requires Tame(ls, bound) && FrameOk(ls, f)
  {
    if f.de.Some? then 2 + CostEntries(ls, bound, f.de.value, f.rest) else 1
  }

  ghost function StackCost(ls: Listing, bound: nat, active: seq<Frame>): nat
    requires Tame(ls, bound) && StackOk(ls, active)
  {
    if active == [] then 0
    else FrameCost(ls, bound, active[|active| - 1]) + StackCost(ls, bound, active[..|active| - 1])
  }

  ghost function TotalCost(ls: Listing, bound: nat, nextDir: Option<string>, active: seq<Frame>): nat
    requires Tame(ls, bound) && StackOk(ls, active)
  {
    (if nextDir.Some? then Cost(ls, bound, nextDir.value) else 0) + StackCost(ls, bound, active)
  }

  /** Listing the next directory, well or badly, changes nothing to come. */
  lemma ListKeeps(ls: Listing, bound: nat, fails: Failures, j: nat, d: string, active: seq<Frame>)
    requires Tame(ls, bound) && StackOk(ls, active) && (active != [] ==> active[|active| - 1].de.Some?)
    ensures
      var pushed := active + [Frame(Some(d), ls(d))];
      && StackOk(ls, pushed)
      && TotalCost(ls, bound, None, pushed) == TotalCost(ls, bound, Some(d), active) > TotalCost(ls, bound, None, active)
      && Pending(ls, bound, fails, j, Some(d), active)
         == Pending(ls, bound, fails, j + 1, None, if fails(j, d).Some? then active else pushed)
  {
    var pushed := active + [Frame(Some(d), ls(d))];
    assert pushed[..|pushed| - 1] == active;
  }

  /** Replacing the innermost open directory. */
  lemma TopKeeps(ls: Listing, bound: nat, fails: Failures, j: nat, active: seq<Frame>, f: Frame)
    requires Tame(ls, bound) && StackOk(ls, active) && active != [] && FrameOk(ls, f)
    ensures
      var n := |active| - 1;
      var after, part := active[n := f], Left(ls, bound, fails, j, f);
      && StackOk(ls, after) && StackOk(ls, active[..n])
      && StackLeft(ls, bound, fails, j, after) == part.0 + StackLeft(ls, bound, fails, part.1, active[..n])
      && StackCost(ls, bound, after) == FrameCost(ls, bound, f) + StackCost(ls, bound, active[..n])
  {
    var n := |active| - 1;
    assert active[n := f][..n] == active[..n];
  }

  lemma TakeLeft(ls: Listing, bound: nat, fails: Failures, j: nat, f: Frame)
    requires Tame(ls, bound) && FrameOk(ls, f) && f.rest != []
    ensures
      var Frame(de, rest) := f;
      var f' := Frame(de, rest[1..]);
      && de.Some? && FrameOk(ls, f') && rest[0] in ls(de.value)
      && FrameCost(ls, bound, f) == 1 + FrameCost(ls, bound, f') + CostEntry(ls, bound, de.value, rest[0])
      && var (first, k) := PrunedEntry(ls, bound, fails, j, de.value, rest[0]);
         var (others, next) := Left(ls, bound, fails, k, f');
         Left(ls, bound, fails, j, f) == (first + others, next)
  {
    assert f.rest[0] in f.rest;
    var d := f.de.value;
    var first := PrunedEntry(ls, bound, fails, j, d, f.rest[0]);
    Associate(first.0, PrunedEntries(ls, bound, fails, first.1, d, f.rest[1..]).0, [d]);
  }

  /** Taking one entry off the innermost open directory. */
  lemma TakeEntry(ls: Listing, bound: nat, fails: Failures, j: nat, active: seq<Frame>)
    requires Tame(ls, bound) && StackOk(ls, active) && active != [] && active[|active| - 1].rest != []
    ensures
      var n := |active| - 1;
      var Frame(de, rest) := active[n];
      var after := active[n := Frame(de, rest[1..])];
      && de.Some? && rest[0] in ls(de.value) && StackOk(ls, after)
      && StackCost(ls, bound, active) == 1 + StackCost(ls, bound, after) + CostEntry(ls, bound, de.value, rest[0])
      && var (first, k) := PrunedEntry(ls, bound, fails, j, de.value, rest[0]);
         StackLeft(ls, bound, fails, j, active) == first + StackLeft(ls, bound, fails, k, after)
  {
    var n := |active| - 1;
    var top := active[n];
    assert FrameOk(ls, top);
    TakeLeft(ls, bound, fails, j, top);
    var top' := Frame(top.de, top.rest[1..]);
    var first := PrunedEntry(ls, bound, fails, j, top.de.value, top.rest[0]);
    TopKeeps(ls, bound, fails, j, active, top);
    TopKeeps(ls, bound, fails, first.1, active, top');
    assert active[n := top] == active;
    hide *;
    var others := Left(ls, bound, fails, first.1, top');
    Associate(first.0, others.0, StackLeft(ls, bound, fails, others.1, active[..n]));
  }

  lemma LeftWhenRead(ls: Listing, bound: nat, fails: Failures, j: nat, de: Option<string>)
    requires Tame(ls, bound)
    ensures var f := Frame(de, []);
      && FrameOk(ls, f) && FrameCost(ls, bound, f) == (if de.Some? then 2 else 1)
      && Left(ls, bound, fails, j, f) == (if de.Some? then [de.value] else [], j)
  {
    assert de.Some? ==> [] + [de.value] == [de.value];
  }

  /** Handing the innermost directory out, and dropping it once that is done. */
  lemma CloseTop(ls: Listing, bound: nat, fails: Failures, j: nat, active: seq<Frame>)
    requires Tame(ls, bound) && StackOk(ls, active) && active != [] && active[|active| - 1].rest == []
    ensures
      var n := |active| - 1;
      var de, after := active[n].de, if active[n].de.Some? then active[n := Frame(None, [])] else active[..n];
      && StackOk(ls, after) && (n > 0 ==> active[n - 1].de.Some?)
      && StackLeft(ls, bound, fails, j, active) == (if de.Some? then [de.value] else []) + StackLeft(ls, bound, fails, j, after)
      && StackCost(ls, bound, after) < StackCost(ls, bound, active)
  {
    var n := |active| - 1;
    var top, done := active[n], Frame(None, []);
    assert FrameOk(ls, top) && FrameOk(ls, done);
    assert n > 0 ==> active[n - 1].de.Some?;
    LeftWhenRead(ls, bound, fails, j, top.de);
    LeftWhenRead(ls, bound, fails, j, None);
    hide *;
    assert active[n := top] == active;
    TopKeeps(ls, bound, fails, j, active, top);
    TopKeeps(ls, bound, fails, j, active, done);
  }

  /** The service, with the numbers of the calls made so far. A failed fetch
      leaves the directory's lister where it was. */
  class Service {
    const ls: Listing
    const fails: Failures
    const hiccups: nat -> Option<Error>
    var listed: nat
    var fetched: nat

    constructor (ls: Listing, fails: Failures, hiccups: nat -> Option<Error>)
      ensures this.ls == ls && this.fails == fails && this.hiccups == hiccups && listed == 0 && fetched == 0
    {
      this.ls, this.fails, this.hiccups, listed, fetched := ls, fails, hiccups, 0, 0;
    }

    method List(d: string) returns (r: Result<seq<string>>)
      modifies this`listed
      ensures listed == old(listed) + 1
      ensures r == match fails(old(listed), d) case Some(e) => Err(e) case None => Ok(ls(d))
    {
      listed := listed + 1;
      match fails(listed - 1, d) {
        case Some(e) => return Err(e);
        case None => return Ok(ls(d));
      }
    }

    method Fetch() returns (failure: Option<Error>)
      modifies this`fetched
      ensures fetched == old(fetched) + 1 && failure == hiccups(old(fetched))
    {
      fetched := fetched + 1;
      return hiccups(fetched - 1);
    }
  }

  class FlatLister {
    const acc: Service
    ghost const bound: nat
    var nextDir: Option<string>
    var active: seq<Frame>

    ghost predicate Valid()
      reads this
    {
      && Tame(acc.ls, bound) && StackOk(acc.ls, active)
      && (nextDir.Some? && active != [] ==> active[|active| - 1].de.Some?)
    }

    /** All that calls of `Next` will hand out. */
    ghost function Todo(): seq<string>
      requires Valid()
      reads this, acc
    {
      Pending(acc.ls, bound, acc.fails, acc.listed, nextDir, active)
    }

    ghost function CostLeft(): nat
      requires Valid()
      reads this
    {
      TotalCost(acc.ls, bound, nextDir, active)
    }

    constructor (acc: Service, ghost bound: nat, path: string)
      requires Tame(acc.ls, bound)
      ensures Valid() && this.acc == acc && this.bound == bound
      ensures Todo() == Pruned(acc.ls, bound, acc.fails, acc.listed, path).0
    {
      this.acc, this.bound := acc, bound;
      nextDir, active := Some(path), [];
    }

    /** List the directory that is due; it is forgotten if that fails. */
    method Open() returns (failure: Option<Error>)
      requires Valid() && nextDir.Some?
      modifies this`nextDir, this`active, acc`listed
      ensures Valid() && nextDir == None && Todo() == old(Todo())
      ensures if failure.Some? then CostLeft() < old(CostLeft()) else CostLeft() == old(CostLeft())
      ensures acc.listed == old(acc.listed) + 1 && failure == acc.fails(old(acc.listed), old(nextDir.value))
    {
      hide Pending, TotalCost, Tame, FrameOk;
      var d := nextDir.value;
      assert nextDir == Some(d);
      ListKeeps(acc.ls, bound, acc.fails, acc.listed, d, active);
      nextDir := None;
      var l := acc.List(d);
      match l {
        case Err(e) => return Some(e);
        case Ok(es) =>
          active := active + [Frame(Some(d), es)];
          return None;
      }
    }

    /** One look at the innermost open directory: an entry to hand out, or
        nothing yet. */
    method Pull() returns (out: Option<string>)
      requires Valid() && nextDir == None && active != []
      modifies this`nextDir, this`active
      ensures Valid() && CostLeft() < old(CostLeft())
      ensures old(Todo()) == (if out.Some? then [out.value] else []) + Todo()
    {
      hide Pruned, PrunedEntries, Cost, CostEntries, Left, FrameCost, FrameOk, Tame;
      var n := |active| - 1;
      var top := active[n];
      if top.rest != [] {
        TakeEntry(acc.ls, bound, acc.fails, acc.listed, active);
        var v := top.rest[0];
        active := active[n := Frame(top.de, top.rest[1..])];
        if !IsDir(v) {
          return Some(v);
        }
        if v != top.de.value {
          nextDir := Some(v);
        }
        return None;
      }
      CloseTop(acc.ls, bound, acc.fails, acc.listed, active);
      if top.de.Some? {
        active := active[n := Frame(None, [])];
        return top.de;
      }
      active := active[..n];
      return None;
    }

    /** Hands out the next entry of the pruned walk. A failure is that of the
        last listing or of the last fetch, and changes nothing to come: a directory
        that failed to be listed was not part of it. */
    method Next() returns (r: Result<Option<string>>)
      requires Valid()
      modifies this`nextDir, this`active, acc
      ensures Valid() && acc.fetched >= old(acc.fetched) && acc.listed >= old(acc.listed)
      ensures match r
              case Ok(Some(v)) => old(Todo()) == [v] + Todo() && CostLeft() < old(CostLeft())
              case Ok(None) => old(Todo()) == [] && Todo() == []
              case Err(e) =>
                && Todo() == old(Todo())
                && (|| (CostLeft() < old(CostLeft()) && acc.listed > old(acc.listed) && ListingFailed(acc.fails, acc.listed - 1, e))
                    || (CostLeft() <= old(CostLeft()) && acc.fetched > old(acc.fetched) && acc.hiccups(acc.fetched - 1) == Some(e)))
    {
      hide Tame, FrameOk, StackLeft, StackCost, Pending, TotalCost;
      while true
        invariant Valid() && Todo() == old(Todo()) && CostLeft() <= old(CostLeft())
        invariant acc.fetched >= old(acc.fetched) && acc.listed >= old(acc.listed)
        decreases CostLeft()
      {
        if nextDir.Some? {
          ghost var d := nextDir.value;
          var failure := Open();
          if failure.Some? {
            assert acc.fails(acc.listed - 1, d) == failure;
            return Err(failure.value);
          }
        }
        if active == [] {
          NothingPending(acc.ls, bound, acc.fails, acc.listed);
          return Ok(None);
        }
        var failure := acc.Fetch();
        if failure.Some? {
          return Err(failure.value);
        }
        var out := Pull();
        if out.Some? {
          return Ok(out);
        }
      }
    }
  }

  lemma NothingPending(ls: Listing, bound: nat, fails: Failures, j: nat)
    requires Tame(ls, bound)
    ensures Pending(ls, bound, fails, j, None, []) == []
  {
  }

  /** A caller that calls again after every failure, as a retry layer does,
      misses exactly the directories whose listing failed, each with all that is
      below it, and so gets the whole walk exactly if none of the directories on
      the way fails to be listed. Failing to fetch an entry costs nothing. */
  method CollectRetrying(ls: Listing, ghost bound: nat, path: string, fails: Failures, hiccups: nat -> Option<Error>, ghost patience: nat)
    returns (out: seq<string>, errors: seq<Error>)
    requires Tame(ls, bound)
    requires forall k: nat :: k >= patience ==> hiccups(k).None?
    ensures out == Pruned(ls, bound, fails, 0, path).0
    ensures forall e <- errors :: Failed(fails, hiccups, e)
    ensures out == Flat(ls, bound, path) <==> Clear(fails, 0, Opened(ls, bound, path))
  {
    WholeExactly(ls, bound, fails, path);
    hide *;
    var acc := new Service(ls, fails, hiccups);
    var lister := new FlatLister(acc, bound, path);
    out, errors := Drain(lister, patience);
  }

  /** Some call of the service fails with this error. */
  ghost predicate Failed(fails: Failures, hiccups: nat -> Option<Error>, e: Error) {
    (exists j: nat :: ListingFailed(fails, j, e)) || (exists k: nat :: hiccups(k) == Some(e))
  }

  lemma ListingIsFailed(fails: Failures, hiccups: nat -> Option<Error>, j: nat, e: Error)
    requires ListingFailed(fails, j, e)
    ensures Failed(fails, hiccups, e)
  {
  }

  lemma HiccupIsFailed(fails: Failures, hiccups: nat -> Option<Error>, k: nat, e: Error)
    requires hiccups(k) == Some(e)
    ensures Failed(fails, hiccups, e)
  {
  }

  lemma EmptyExactly<T(!new)>(s: seq<T>)
    ensures s == [] <==> forall x :: x !in s
  {
    if s != [] {
      assert s[0] in s;
    }
  }

  lemma NothingFails(fails: Failures, hiccups: nat -> Option<Error>)
    requires (forall j: nat, d :: fails(j, d).None?) && (forall k: nat :: hiccups(k).None?)
    ensures forall e :: !Failed(fails, hiccups, e)
  {
  }

  /** Calls until the end is reported; `errors` are the failures on the way, each
      the service's own. */
  method Drain(lister: FlatLister, ghost patience: nat) returns (out: seq<string>, errors: seq<Error>)
    requires lister.Valid() && forall k: nat :: k >= patience ==> lister.acc.hiccups(k).None?
    modifies lister, lister.acc
    ensures lister.Valid() && out == old(lister.Todo()) && lister.Todo() == []
    ensures forall e <- errors :: Failed(lister.acc.fails, lister.acc.hiccups, e)
  {
    hide *;
    out, errors := [], [];
    var done := false;
    while !done
      invariant lister.Valid()
      invariant out + lister.Todo() == old(lister.Todo())
      invariant done ==> lister.Todo() == []
      invariant forall e <- errors :: Failed(lister.acc.fails, lister.acc.hiccups, e)
      decreases !done, lister.CostLeft() + if lister.acc.fetched < patience then patience - lister.acc.fetched else 0
    {
      ghost var fetched := lister.acc.fetched;
      var r := lister.Next();
      match r {
        case Ok(None) => done := true;
        case Ok(Some(v)) =>
          Associate(out, [v], lister.Todo());
          out := out + [v];
        case Err(e) =>
          if lister.acc.fetched > fetched && lister.acc.hiccups(lister.acc.fetched - 1) == Some(e) {
            HiccupIsFailed(lister.acc.fails, lister.acc.hiccups, lister.acc.fetched - 1, e);
          } else {
            ListingIsFailed(lister.acc.fails, lister.acc.hiccups, lister.acc.listed - 1, e);
          }
          errors := errors + [e];
      }
    }
  }

  /** Without failures the lister hands out exactly the recursive walk, and
      reports none. */
  method Collect(ls: Listing, ghost bound: nat, path: string) returns (out: seq<string>, errors: seq<Error>)
    requires Tame(ls, bound)
    ensures out == Flat(ls, bound, path) && errors == []
  {
    var fails: Failures := (_, _) => None;
    var hiccups: nat -> Option<Error> := _ => None;
    NothingFails(fails, hiccups);
    out, errors := CollectRetrying(ls, bound, path, fails, hiccups, 0);
    EmptyExactly(errors);
  }
}
