/**
 The in-memory index of core/src/layers/immutable_index.rs: flat and
 hierarchical listings of one list of keys, how they agree when the hierarchy is
 walked, and the prefix listing that core/src/layers/complete.rs makes of them.
 */
module ImmutableIndex {
  import opened Common
  import opened Paths
  import opened FlatListing

  /** The keys below a path, in the order of the index. */
  function ChildrenFlat(keys: seq<string>, path: string): seq<string> {
    if keys == [] then []
    else (if path <= keys[0] && keys[0] != path then [keys[0]] else []) + ChildrenFlat(keys[1..], path)
  }

  /** What a key contributes to the hierarchical listing of a path: itself, or
      the directory right below the path that leads to it. */
  function Child(path: string, key: string): string
    requires path <= key
  {
    var i := FirstSlash(key[|path|..]);
    if |path| + i == |key| then key else key[..|path| + i + 1]
  }

  ghost predicate IsChild(keys: seq<string>, path: string, e: string) {
    exists k <- keys :: path <= k && k != path && Child(path, k) == e
  }

  method ChildrenHierarchy(keys: seq<string>, path: string) returns (res: set<string>)
    ensures forall e :: e in res <==> IsChild(keys, path, e)
  {
    res := {};
    for n := 0 to |keys|
      invariant forall e :: e in res <==> IsChild(keys[..n], path, e)
    {
      var i := keys[n];
      IsChildSnoc(keys, n, path);
      if !(path <= i) || i == path {
        continue;
      }
      var idx := FirstSlash(i[|path|..]);
      if idx == |i| - |path| {
        res := res + {i};
      } else {
        var dirIdx := idx + 1 + |path|;
        if dirIdx == |i| {
          assert i[..dirIdx] == i;
          res := res + {i};
        } else {
          res := res + {i[..dirIdx]};
        }
      }
    }
    assert keys[..|keys|] == keys;
  }

  lemma IsChildSnoc(keys: seq<string>, n: nat, path: string)
    requires n < |keys|
    ensures forall e :: IsChild(keys[..n + 1], path, e) <==>
              IsChild(keys[..n], path, e) || (path <= keys[n] && keys[n] != path && Child(path, keys[n]) == e)
  {
    assert keys[..n + 1] == keys[..n] + [keys[n]];
  }

  /** `list` reads "/" as the empty prefix. */
  function ListPath(path: string): string { if path == "/" then "" else path }

  lemma {:induction false} InChildrenFlat(keys: seq<string>, path: string, x: string)
    ensures x in ChildrenFlat(keys, path) <==> x in keys && path <= x && x != path
  {
    if keys != [] {
      InChildrenFlat(keys[1..], path, x);
      assert keys == [keys[0]] + keys[1..];
    }
  }

  /** ... as often as the index holds them. */
  lemma {:induction false} ChildrenFlatCounts(keys: seq<string>, path: string, x: string)
    ensures multiset(ChildrenFlat(keys, path))[x] == if path <= x && x != path then multiset(keys)[x] else 0
  {
    if keys != [] {
      ChildrenFlatCounts(keys[1..], path, x);
      assert keys == [keys[0]] + keys[1..];
    }
  }

  lemma ChildrenFlatCons(key: string, keys: seq<string>, path: string)
    ensures ChildrenFlat([key] + keys, path) == ChildrenFlat([key], path) + ChildrenFlat(keys, path)
  {
    assert ([key] + keys)[1..] == keys && [key][1..] == [];
  }

  /** ... and in the order of the index. */
  lemma {:induction false} ChildrenFlatConcat(a: seq<string>, b: seq<string>, path: string)
    ensures ChildrenFlat(a + b, path) == ChildrenFlat(a, path) + ChildrenFlat(b, path)
  {
    if a == [] {
      assert a + b == b;
    } else {
      ChildrenFlatConcat(a[1..], b, path);
      var rest := a[1..];
      assert a == [a[0]] + rest && a + b == [a[0]] + (rest + b);
      hide ChildrenFlat;
      ChildrenFlatCons(a[0], rest, path);
      ChildrenFlatCons(a[0], rest + b, path);
      Associate(ChildrenFlat([a[0]], path), ChildrenFlat(rest, path), ChildrenFlat(b, path));
    }
  }

  // ---------------------------------------------------------------------
  // Walking the hierarchy.

  /** x lies strictly below p: a key, or a directory on the way to a key. */
  ghost predicate Under(keys: seq<string>, p: string, x: string) {
    p <= x && x != p && exists k <- keys :: x <= k && (x == k || IsDir(x))
  }

  lemma ChildShape(p: string, k: string)
    requires p <= k && k != p
    ensures var e := Child(p, k);
      && p <= e <= k && e != p && (e == k || IsDir(e))
      && (forall j :: |p| <= j < |e| - 1 ==> e[j] != '/')
  {
    var rest := k[|p|..];
    var i := FirstSlash(rest);
    hide FirstSlash;
    var e := Child(p, k);
    assert forall j :: |p| <= j < |p| + i ==> k[j] == rest[j - |p|];
    if i < |rest| {
      assert k[|p| + i] == rest[i];
    }
    assert e == k[..|e|];
  }

  /** A directory between p and k is not above p's child towards k. */
  lemma ChildIsFirst(p: string, k: string, x: string)
    requires p <= x <= k && x != p && (x == k || IsDir(x))
    ensures Child(p, k) <= x && (x == Child(p, k) || IsDir(Child(p, k)))
  {
    ChildShape(p, k);
    var e := Child(p, k);
    hide Child;
    assert e == k[..|e|] && x == k[..|x|];
    assert |e| <= |x|;
    assert x[..|e|] == e;
  }

  /** What lies below p is each child and what lies below it. */
  lemma UnderStep(keys: seq<string>, p: string, x: string)
    ensures Under(keys, p, x) <==> exists e :: IsChild(keys, p, e) && (x == e || (IsDir(e) && Under(keys, e, x)))
  {
    hide Child;
    if Under(keys, p, x) {
      var k :| k in keys && x <= k && (x == k || IsDir(x));
      ChildIsFirst(p, k, x);
      ChildShape(p, k);
      assert IsChild(keys, p, Child(p, k));
    }
    if e :| IsChild(keys, p, e) && (x == e || (IsDir(e) && Under(keys, e, x))) {
      var k :| k in keys && p <= k && k != p && Child(p, k) == e;
      ChildShape(p, k);
      if x == e {
        assert x <= k && (x == k || IsDir(x));
      } else {
        assert p <= e <= x;
      }
    }
  }

  /** A service that lists the index, in any order, each entry once. */
  ghost predicate Lists(keys: seq<string>, ls: Listing) {
    forall d {:trigger ls(d)} :: Distinct(ls(d)) && forall e :: e in ls(d) <==> IsChild(keys, ListPath(d), e)
  }

  function MaxLen(keys: seq<string>): (n: nat)
    ensures forall k <- keys :: |k| <= n
  {
    if keys == [] then 0
    else
      var rest := MaxLen(keys[1..]);
      assert forall k <- keys :: k == keys[0] || k in keys[1..];
      if |keys[0]| > rest then |keys[0]| else rest
  }

  lemma ChildOf(keys: seq<string>, p: string, e: string) returns (k: string)
    requires IsChild(keys, p, e)
    ensures k in keys && p <= e <= k && e != p && (e == k || IsDir(e))
    ensures forall j :: |p| <= j < |e| - 1 ==> e[j] != '/'
  {
    k :| k in keys && p <= k && k != p && Child(p, k) == e;
    ChildShape(p, k);
  }

  /** Walking the index always comes to an end, whatever the keys. */
  lemma IndexTame(keys: seq<string>, ls: Listing)
    requires Lists(keys, ls)
    ensures Tame(ls, MaxLen(keys))
  {
    forall d, e | e in ls(d) && IsDir(e) && e != d
      ensures |d| < |e| <= MaxLen(keys)
    {
      var k := ChildOf(keys, ListPath(d), e);
      assert |k| <= MaxLen(keys);
    }
  }

  lemma {:induction false} InFlatEntries(ls: Listing, bound: nat, d: string, es: seq<string>, x: string)
    requires Tame(ls, bound) && forall e <- es :: e in ls(d)
    ensures x in FlatEntries(ls, bound, d, es) <==> exists e <- es :: x in FlatEntry(ls, bound, d, e)
  {
    if es != [] {
      assert es[0] in es && es == [es[0]] + es[1..];
      InFlatEntries(ls, bound, d, es[1..], x);
    }
  }

  /** What a walk from directory d reaches below d. */
  ghost predicate Below(keys: seq<string>, d: string, x: string) {
    Under(keys, ListPath(d), x) && (d == "/" ==> x[0] != '/')
  }

  /** The step of UnderStep as a walk takes it: the directory itself is not
      entered again. */
  lemma BelowStep(keys: seq<string>, d: string, x: string)
    requires IsDir(d)
    ensures Below(keys, d, x) <==>
      exists e :: IsChild(keys, ListPath(d), e) && e != d && (x == e || (IsDir(e) && Under(keys, e, x)))
  {
    var p := ListPath(d);
    UnderStep(keys, p, x);
    hide Child, IsChild;
    if Below(keys, d, x) {
      var e :| IsChild(keys, p, e) && (x == e || (IsDir(e) && Under(keys, e, x)));
      var k := ChildOf(keys, p, e);
      assert e <= x;
      assert e != d;
    }
    if e :| IsChild(keys, p, e) && e != d && (x == e || (IsDir(e) && Under(keys, e, x))) {
      var k := ChildOf(keys, p, e);
      assert e <= x && x[0] == e[0];
      assert d == "/" && e[0] == '/' ==> |e| == 1;
    }
  }

  lemma {:induction false} InFlat(keys: seq<string>, ls: Listing, d: string, x: string)
    requires Lists(keys, ls) && Tame(ls, MaxLen(keys)) && IsDir(d)
    ensures x in Flat(ls, MaxLen(keys), d) <==> x == d || Below(keys, d, x)
    decreases Depth(MaxLen(keys), d)
  {
    var bound := MaxLen(keys);
    forall e | e in ls(d)
      ensures x in FlatEntry(ls, bound, d, e) <==> e != d && (x == e || (IsDir(e) && Under(keys, e, x)))
    {
      if IsDir(e) && e != d {
        InFlat(keys, ls, e, x);
      } else if !IsDir(e) {
        assert FlatEntry(ls, bound, d, e) == [e];
      }
    }
    InFlatEntries(ls, bound, d, ls(d), x);
    BelowStep(keys, d, x);
  }

  lemma DistinctConcat<T(!new)>(a: seq<T>, b: seq<T>)
    requires Distinct(a) && Distinct(b) && forall x :: !(x in a && x in b)
    ensures Distinct(a + b)
  {
    forall i, j | 0 <= i < j < |a + b|
      ensures (a + b)[i] != (a + b)[j]
    {
      if i < |a| <= j {
        assert (a + b)[i] in a && (a + b)[j] in b;
      }
    }
  }

  /** The child of p through which one gets to x is unique. */
  lemma ChildUnique(keys: seq<string>, p: string, x: string, e1: string, e2: string)
    requires IsChild(keys, p, e1) && e1 <= x && (x == e1 || IsDir(e1))
    requires IsChild(keys, p, e2) && e2 <= x && (x == e2 || IsDir(e2))
    ensures e1 == e2
  {
    var k1 := ChildOf(keys, p, e1);
    var k2 := ChildOf(keys, p, e2);
    assert e1 == x[..|e1|] && e2 == x[..|e2|];
    assert |e1| <= |e2| && |e2| <= |e1|;
  }

  lemma EntryThrough(keys: seq<string>, ls: Listing, d: string, e: string, x: string)
    requires Lists(keys, ls) && Tame(ls, MaxLen(keys)) && IsDir(d) && e in ls(d)
    requires x in FlatEntry(ls, MaxLen(keys), d, e)
    ensures e <= x && (x == e || IsDir(e)) && x != d
  {
    if IsDir(e) && e != d {
      InFlat(keys, ls, e, x);
    }
  }

  lemma {:induction false} FlatEntriesDistinct(keys: seq<string>, ls: Listing, d: string, es: seq<string>)
    requires Lists(keys, ls) && Tame(ls, MaxLen(keys)) && IsDir(d)
    requires Distinct(es) && forall e <- es :: e in ls(d)
    ensures Distinct(FlatEntries(ls, MaxLen(keys), d, es))
    decreases Depth(MaxLen(keys), d), |es|
  {
    var bound := MaxLen(keys);
    if es != [] {
      var e, rest := es[0], es[1..];
      assert e in es && forall e' <- rest :: e' in es && e' != e;
      FlatEntriesDistinct(keys, ls, d, rest);
      if IsDir(e) && e != d {
        FlatDistinct(keys, ls, e);
      }
      var a, b := FlatEntry(ls, bound, d, e), FlatEntries(ls, bound, d, rest);
      forall x
        ensures !(x in a && x in b)
      {
        if x in a && x in b {
          InFlatEntries(ls, bound, d, rest, x);
          var e' :| e' in rest && x in FlatEntry(ls, bound, d, e');
          EntryThrough(keys, ls, d, e, x);
          EntryThrough(keys, ls, d, e', x);
          ChildUnique(keys, ListPath(d), x, e, e');
          assert false;
        }
      }
      DistinctConcat(a, b);
    }
  }

  lemma {:induction false} FlatDistinct(keys: seq<string>, ls: Listing, d: string)
    requires Lists(keys, ls) && Tame(ls, MaxLen(keys)) && IsDir(d)
    ensures Distinct(Flat(ls, MaxLen(keys), d))
    decreases Depth(MaxLen(keys), d), |ls(d)| + 1
  {
    var bound := MaxLen(keys);
    FlatEntriesDistinct(keys, ls, d, ls(d));
    var below := FlatEntries(ls, bound, d, ls(d));
    InFlatEntries(ls, bound, d, ls(d), d);
    if d in below {
      var e :| e in ls(d) && d in FlatEntry(ls, bound, d, e);
      EntryThrough(keys, ls, d, e, d);
    }
    DistinctConcat(below, [d]);
  }

  /** Walking the hierarchy from a directory hands out, each once: the
      directory, the keys below it and the directories on the way to them. */
  lemma WalkOfIndex(keys: seq<string>, ls: Listing, d: string)
    requires Lists(keys, ls) && IsDir(d)
    ensures Tame(ls, MaxLen(keys)) && Distinct(Flat(ls, MaxLen(keys), d))
    ensures forall x :: x in Flat(ls, MaxLen(keys), d) <==> x == d || Below(keys, d, x)
  {
    IndexTame(keys, ls);
    FlatDistinct(keys, ls, d);
    forall x
      ensures x in Flat(ls, MaxLen(keys), d) <==> x == d || Below(keys, d, x)
    {
      InFlat(keys, ls, d, x);
    }
  }

  /** What the walk from d still reaches when the directories for which `bad`
      holds cannot be listed: nothing at or below one of these. */
  ghost predicate Reached(keys: seq<string>, bad: string -> bool, d: string, x: string) {
    && !bad(d)
    && (x == d || (Below(keys, d, x) && forall f :: IsDir(f) && Below(keys, d, f) && f <= x ==> !bad(f)))
  }

  /** The same through one entry of d. */
  ghost predicate Through(keys: seq<string>, bad: string -> bool, d: string, e: string, x: string) {
    e != d && if IsDir(e) then Reached(keys, bad, e, x) else x == e
  }

  lemma ChildIsNotRoot(keys: seq<string>, d: string, e: string)
    requires IsDir(d) && IsChild(keys, ListPath(d), e) && e != d
    ensures ListPath(e) == e && forall x :: Below(keys, e, x) <==> Under(keys, e, x)
  {
    var k := ChildOf(keys, ListPath(d), e);
    hide IsChild, Under;
  }

  lemma ReachedDown(keys: seq<string>, bad: string -> bool, d: string, x: string) returns (e: string)
    requires IsDir(d) && Reached(keys, bad, d, x) && x != d
    ensures IsChild(keys, ListPath(d), e) && Through(keys, bad, d, e, x)
  {
    hide IsChild, ListPath;
    BelowStep(keys, d, x);
    e :| IsChild(keys, ListPath(d), e) && e != d && (x == e || (IsDir(e) && Under(keys, e, x)));
    ChildIsNotRoot(keys, d, e);
    BelowStep(keys, d, e);
    if IsDir(e) {
      assert e <= x && !bad(e);
      forall f | IsDir(f) && Below(keys, e, f) && f <= x
        ensures !bad(f)
      {
        BelowStep(keys, d, f);
      }
    }
  }

  lemma ReachedUp(keys: seq<string>, bad: string -> bool, d: string, e: string, x: string)
    requires IsDir(d) && !bad(d) && IsChild(keys, ListPath(d), e) && Through(keys, bad, d, e, x)
    ensures Reached(keys, bad, d, x) && x != d
  {
    ChildIsNotRoot(keys, d, e);
    BelowStep(keys, d, x);
    assert e <= x;
    forall f | IsDir(f) && Below(keys, d, f) && f <= x
      ensures !bad(f)
    {
      BelowStep(keys, d, f);
      var e' :| IsChild(keys, ListPath(d), e') && e' != d && (f == e' || (IsDir(e') && Under(keys, e', f)));
      assert e' <= x;
      ChildUnique(keys, ListPath(d), x, e, e');
    }
    var k := ChildOf(keys, ListPath(d), e);
  }

  ghost predicate FailsAt(fails: Failures, bad: string -> bool) {
    forall j: nat, d {:trigger fails(j, d)} :: fails(j, d).Some? <==> bad(d)
  }

  lemma {:induction false} InPrunedEntries(keys: seq<string>, ls: Listing, fails: Failures, bad: string -> bool,
                                           j: nat, d: string, es: seq<string>, x: string)
    requires Lists(keys, ls) && Tame(ls, MaxLen(keys)) && FailsAt(fails, bad) && IsDir(d) && forall e <- es :: e in ls(d)
    ensures x in PrunedEntries(ls, MaxLen(keys), fails, j, d, es).0 <==> exists e <- es :: Through(keys, bad, d, e, x)
    decreases Depth(MaxLen(keys), d), |es|
  {
    var bound := MaxLen(keys);
    if es != [] {
      var e := es[0];
      assert e in es && es == [e] + es[1..];
      if IsDir(e) && e != d {
        InPruned(keys, ls, fails, bad, j, e, x);
      }
      hide Reached, Lists, FailsAt, Pruned, MaxLen;
      InPrunedEntries(keys, ls, fails, bad, PrunedEntry(ls, bound, fails, j, d, e).1, d, es[1..], x);
    }
  }

  lemma {:induction false} InPruned(keys: seq<string>, ls: Listing, fails: Failures, bad: string -> bool, j: nat, d: string, x: string)
    requires Lists(keys, ls) && Tame(ls, MaxLen(keys)) && FailsAt(fails, bad) && IsDir(d)
    ensures x in Pruned(ls, MaxLen(keys), fails, j, d).0 <==> Reached(keys, bad, d, x)
    decreases Depth(MaxLen(keys), d), |ls(d)| + 1
  {
    if !bad(d) {
      InPrunedEntries(keys, ls, fails, bad, j + 1, d, ls(d), x);
      if Reached(keys, bad, d, x) && x != d {
        var e := ReachedDown(keys, bad, d, x);
        assert e in ls(d);
      }
      if e :| e in ls(d) && Through(keys, bad, d, e, x) {
        ReachedUp(keys, bad, d, e, x);
      }
    }
  }

  /** A caller that retries over an index some directories of which cannot be
      listed gets exactly the entries of the walk that are neither such a
      directory nor below one. */
  lemma PrunedWalkOfIndex(keys: seq<string>, ls: Listing, fails: Failures, bad: string -> bool, d: string)
    requires Lists(keys, ls) && IsDir(d) && FailsAt(fails, bad)
    ensures Tame(ls, MaxLen(keys))
    ensures forall x :: x in Pruned(ls, MaxLen(keys), fails, 0, d).0 <==> Reached(keys, bad, d, x)
  {
    IndexTame(keys, ls);
    forall x
      ensures x in Pruned(ls, MaxLen(keys), fails, 0, d).0 <==> Reached(keys, bad, d, x)
    {
      InPruned(keys, ls, fails, bad, 0, d, x);
    }
  }

  /** Everything the walk reaches is in the flat listing, or is the start, or is
      a directory on the way to a key. */
  lemma WalkIsFlatListing(keys: seq<string>, ls: Listing, d: string, x: string)
    requires Lists(keys, ls) && IsDir(d) && x != d
    ensures Tame(ls, MaxLen(keys))
    ensures x in Flat(ls, MaxLen(keys), d) ==>
              x in ChildrenFlat(keys, ListPath(d)) || (IsDir(x) && x !in keys && exists k <- keys :: x <= k)
    ensures x in ChildrenFlat(keys, ListPath(d)) && (d == "/" ==> x == "" || x[0] != '/') ==>
              x in Flat(ls, MaxLen(keys), d)
  {
    WalkOfIndex(keys, ls, d);
    InChildrenFlat(keys, ListPath(d), x);
  }

  /** The walk reaches every key of the flat listing exactly if it does not
      start at the root or no key but "/" begins with a slash. */
  lemma WalkCompleteExactly(keys: seq<string>, ls: Listing, d: string)
    requires Lists(keys, ls) && IsDir(d)
    ensures Tame(ls, MaxLen(keys))
    ensures (forall k <- ChildrenFlat(keys, ListPath(d)) :: k in Flat(ls, MaxLen(keys), d))
            <==> (d == "/" ==> forall k <- keys :: k != "" && k[0] == '/' ==> k == "/")
  {
    WalkOfIndex(keys, ls, d);
    forall k <- keys
      ensures k in ChildrenFlat(keys, ListPath(d)) <==> ListPath(d) <= k && k != ListPath(d)
      ensures ListPath(d) <= k && k != ListPath(d) ==> Under(keys, ListPath(d), k)
    {
      InChildrenFlat(keys, ListPath(d), k);
    }
    forall k <- ChildrenFlat(keys, ListPath(d))
      ensures k in keys && ListPath(d) <= k && k != ListPath(d)
    {
      InChildrenFlat(keys, ListPath(d), k);
    }
  }

  /** The recursive listing emulated over the index by FlatLister. */
  method ListRecursively(keys: seq<string>, ls: Listing, d: string) returns (out: seq<string>)
    requires Lists(keys, ls) && IsDir(d)
    ensures Distinct(out)
    ensures forall x :: x in out <==> x == d || Below(keys, d, x)
  {
    WalkOfIndex(keys, ls, d);
    var errors;
    out, errors := Collect(ls, MaxLen(keys), d);
  }

  // ---------------------------------------------------------------------
  // Listing a prefix by listing its parent (complete_list over PrefixLister).

  lemma ParentPrefix(path: string)
    requires path != "" && path[0] != '/' && !IsDir(path)
    ensures var p := ListPath(GetParent(path));
      p <= path && p != path && forall j :: |p| <= j < |path| ==> path[j] != '/'
  {
    var n := PastLastSlash(path);
    hide PastLastSlash;
    assert GetParent(path) == if n == 0 then "/" else path[..n];
    assert n > 0 ==> path[..n][0] == path[0];
  }

  /** A longer prefix with no slash in between leads to the same child. */
  lemma SameChild(p: string, path: string, k: string)
    requires p <= path <= k && forall j :: |p| <= j < |path| ==> path[j] != '/'
    ensures Child(p, k) == Child(path, k)
  {
    var i := FirstSlash(k[|path|..]);
    var rest := k[|p|..];
    assert forall j :: |p| <= j < |path| ==> rest[j - |p|] == path[j];
    assert forall j :: 0 <= j < |rest| ==> rest[j] == k[|p| + j];
    var m := |path| - |p| + i;
    forall j | 0 <= j < m
      ensures rest[j] != '/'
    {
      if j >= |path| - |p| {
        assert rest[j] == k[|path|..][j - (|path| - |p|)];
      }
    }
    if i < |k| - |path| {
      assert rest[m] == k[|path|..][i];
    }
    FirstSlashIs(rest, m);
  }

  /** For a path that is not a directory, keeping the entries of the parent's
      listing that start with the path gives the path's own listing, and the
      path itself if it is a key. */
  lemma PrefixListing(keys: seq<string>, path: string, e: string)
    requires path != "" && path[0] != '/' && !IsDir(path)
    ensures IsChild(keys, ListPath(GetParent(path)), e) && path <= e
            <==> IsChild(keys, path, e) || (e == path && path in keys)
  {
    var p := ListPath(GetParent(path));
    ParentPrefix(path);
    SameChild(p, path, path);
    ChildOfItself(path);
    hide Child, GetParent, IsDir;
    if IsChild(keys, p, e) && path <= e {
      var k :| k in keys && p <= k && k != p && Child(p, k) == e;
      ChildShape(p, k);
      assert path <= k;
      SameChild(p, path, k);
    }
    if IsChild(keys, path, e) {
      var k :| k in keys && path <= k && k != path && Child(path, k) == e;
      ChildShape(path, k);
      SameChild(p, path, k);
      assert p <= k && k != p;
    }
    if e == path && path in keys {
      assert p <= path && path != p && Child(p, path) == e;
    }
  }

  lemma ChildOfItself(path: string)
    ensures Child(path, path) == path
  {
    assert path[|path|..] == "";
  }

  lemma ParentIsDir(path: string)
    requires path != "" && !IsDir(path)
    ensures IsDir(GetParent(path))
  {
    var n := PastLastSlash(path);
    hide PastLastSlash;
  }

  /** The same for recursive listings: the entries of the parent's walk that
      start with the path are exactly the keys of the path's flat listing, the
      directories on the way to these, and the path itself if it is a key. */
  lemma PrefixWalk(keys: seq<string>, ls: Listing, path: string, x: string)
    requires Lists(keys, ls) && path != "" && path[0] != '/' && !IsDir(path)
    ensures Tame(ls, MaxLen(keys))
    ensures x in Flat(ls, MaxLen(keys), GetParent(path)) && path <= x
       <==> || x in ChildrenFlat(keys, path)
            || (x == path && path in keys)
            || (path <= x && IsDir(x) && exists k <- ChildrenFlat(keys, path) :: x <= k)
  {
    ParentPrefix(path);
    ParentIsDir(path);
    var d := GetParent(path);
    WalkOfIndex(keys, ls, d);
    assert x in Flat(ls, MaxLen(keys), d) && path <= x <==> Under(keys, ListPath(d), x) && path <= x;
    hide *;
    PrefixUnder(keys, ListPath(d), path, x);
  }

  lemma PrefixUnder(keys: seq<string>, p: string, path: string, x: string)
    requires p <= path && p != path && !IsDir(path)
    ensures Under(keys, p, x) && path <= x
       <==> || x in ChildrenFlat(keys, path)
            || (x == path && path in keys)
            || (path <= x && IsDir(x) && exists k <- ChildrenFlat(keys, path) :: x <= k)
  {
    hide ChildrenFlat;
    InChildrenFlat(keys, path, x);
    if path <= x && Under(keys, p, x) {
      var k :| k in keys && x <= k && (x == k || IsDir(x));
      InChildrenFlat(keys, path, k);
    }
    if k :| path <= x && k in ChildrenFlat(keys, path) && x <= k && (x == k || IsDir(x)) {
      InChildrenFlat(keys, path, k);
      assert Under(keys, p, x);
    }
  }
}
