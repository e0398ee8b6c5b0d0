/**
 The path-to-id cache of core/src/raw/path_cache.rs over a service that knows
 only (parent id, name) pairs.

 The service only gains entries. Its answers may fail at any call, a failed
 `create_dir` may still have created the directory, and the cache may drop any
 entries at any time.
 */
module PathCache {
  import opened Common
  import opened Paths

  type Id = string

  datatype Tree = Tree(root: Id, kids: map<(Id, string), Id>)

  /** Resolution without a cache: fold the query over the names. */
  function Walk(t: Tree, id: Id, names: seq<string>): Option<Id>
    decreases |names|
  {
    if names == [] then Some(id)
    else if (id, names[0]) in t.kids then Walk(t, t.kids[(id, names[0])], names[1..])
    else None
  }

  function Resolve(t: Tree, path: string): Option<Id> { Walk(t, t.root, Chain(path)) }

  /** Every cache entry is what resolution gives. */
  ghost predicate Sound(t: Tree, cache: map<string, Id>) {
    forall key <- cache :: Resolve(t, key) == Some(cache[key])
  }

  ghost predicate Extends(t: Tree, t': Tree) {
    t.root == t'.root && forall k <- t.kids :: k in t'.kids && t'.kids[k] == t.kids[k]
  }

  function Gain(t: Tree, parent: Id, name: string, id: Id): Tree {
    t.(kids := t.kids[(parent, name) := id])
  }

  lemma {:induction false} WalkConcat(t: Tree, id: Id, a: seq<string>, b: seq<string>)
    ensures Walk(t, id, a + b) == match Walk(t, id, a) case None => None case Some(x) => Walk(t, x, b)
    decreases |a|
  {
    if a == [] {
      assert a + b == b;
    } else {
      assert (a + b)[1..] == a[1..] + b;
      if (id, a[0]) in t.kids {
        WalkConcat(t, t.kids[(id, a[0])], a[1..], b);
      }
    }
  }

  /** What resolves keeps resolving to the same id as the service grows. */
  lemma {:induction false} WalkMonotone(t: Tree, t': Tree, id: Id, names: seq<string>)
    requires Extends(t, t')
    ensures Walk(t, id, names).Some? ==> Walk(t', id, names) == Walk(t, id, names)
    decreases |names|
  {
    if names != [] && (id, names[0]) in t.kids {
      WalkMonotone(t, t', t.kids[(id, names[0])], names[1..]);
    }
  }

  lemma SoundMonotone(t: Tree, t': Tree, cache: map<string, Id>)
    requires Sound(t, cache) && Extends(t, t')
    ensures Sound(t', cache)
  {
    forall key <- cache
      ensures Resolve(t', key) == Some(cache[key])
    {
      WalkMonotone(t, t', t.root, Chain(key));
    }
  }

  lemma WalkSnoc(t: Tree, id: Id, names: seq<string>, name: string)
    ensures Walk(t, id, names + [name])
         == match Walk(t, id, names)
            case None => None
            case Some(x) => if (x, name) in t.kids then Some(t.kids[(x, name)]) else None
  {
    WalkConcat(t, id, names, [name]);
    if Walk(t, id, names).Some? {
      var x := Walk(t, id, names).value;
      if (x, name) in t.kids {
        assert Walk(t, t.kids[(x, name)], [name][1..]) == Some(t.kids[(x, name)]);
      }
    }
  }

  lemma ResolveStep(t: Tree, path: string)
    requires path != "" && path != "/"
    ensures Resolve(t, path)
         == match Resolve(t, GetParent(path))
            case None => None
            case Some(x) => if (x, GetBasename(path)) in t.kids then Some(t.kids[(x, GetBasename(path))]) else None
  {
    WalkSnoc(t, t.root, Chain(GetParent(path)), GetBasename(path));
  }

  /** `paths` leads from `from` down to `path`, one parent at a time. */
  ghost predicate Leads(from: string, paths: seq<string>, path: string)
    decreases |paths|
  {
    if paths == [] then from == path
    else paths[0] != "" && paths[0] != "/" && GetParent(paths[0]) == from && Leads(paths[0], paths[1..], path)
  }

  lemma LeadsUp(from: string, paths: seq<string>, path: string)
    requires Leads(from, paths, path) && from != "" && from != "/"
    ensures Leads(GetParent(from), [from] + paths, path)
  {
    assert ([from] + paths)[1..] == paths;
  }

  lemma {:induction false} LeadsLength(from: string, paths: seq<string>, path: string)
    requires Leads(from, paths, path)
    ensures |Chain(path)| == |Chain(from)| + |paths|
    decreases |paths|
  {
    if paths != [] {
      LeadsLength(paths[0], paths[1..], path);
    }
  }

  /** A missing ancestor means a missing path. */
  lemma {:induction false} MissingAbove(t: Tree, from: string, paths: seq<string>, path: string)
    requires Leads(from, paths, path) && Resolve(t, from) == None
    ensures Resolve(t, path) == None
    decreases |paths|
  {
    hide Resolve;
    if paths != [] {
      ResolveStep(t, paths[0]);
      MissingAbove(t, paths[0], paths[1..], path);
    }
  }

  // ---------------------------------------------------------------------
  // Directory keys as ensure_dir builds them.

  /** The key of a directory: its components, each with its slash. */
  function DirKey(cs: seq<string>): string {
    if cs == [] then "" else DirKey(cs[..|cs| - 1]) + cs[|cs| - 1] + "/"
  }

  lemma DirKeyCut(up: string, last: string)
    requires (up == "" || IsDir(up)) && last != "" && Slashless(last)
    ensures GetBasename(up + last + "/") == last + "/"
    ensures GetParent(up + last + "/") == if up == "" then "/" else up
  {
    var path := up + last + "/";
    var body := path[..|path| - 1];
    assert body == up + last;
    PastLastSlashIs(body, |up|);
    assert path[|up|..] == last + "/" && path[..|up|] == up;
  }

  /** One step of DirKey in terms of parent and basename. */
  lemma DirKeyStep(cs: seq<string>)
    requires Proper(cs) && cs != []
    ensures
      var n := |cs| - 1;
      && IsDir(DirKey(cs)) && DirKey(cs) != "/" && DirKey(cs) != ""
      && GetBasename(DirKey(cs)) == cs[n] + "/"
      && GetParent(DirKey(cs)) == if n == 0 then "/" else DirKey(cs[..n])
  {
    var n := |cs| - 1;
    assert n > 0 ==> IsDir(DirKey(cs[..n]));
    DirKeyCut(DirKey(cs[..n]), cs[n]);
    assert |DirKey(cs)| > |cs[n]| > 0;
  }

  lemma ChainStep(path: string)
    requires path != "" && path != "/"
    ensures Chain(path) == Chain(GetParent(path)) + [GetBasename(path)]
    ensures Chain("") == [] && Chain("/") == []
  {
  }

  /** The key "a/b/" of a directory resolves as the names "a/", "b/". */
  lemma {:induction false} DirKeyChain(cs: seq<string>)
    requires Proper(cs)
    ensures Chain(DirKey(cs)) == DirNames(cs)
  {
    hide *;
    if cs == [] {
      NoNames();
    } else {
      var n := |cs| - 1;
      var up, last := cs[..n], cs[n];
      assert Proper(up) by { ProperPrefix(cs, n); }
      DirKeyChain(up);
      DirKeyStep(cs);
      ChainStep(DirKey(cs));
      assert cs == up + [last];
      NamesAppend(up, last);
      if n == 0 {
        assert up == [];
        NoNames();
      }
    }
  }

  lemma {:induction false} DirKeyShape(cs: seq<string>)
    requires Proper(cs)
    ensures NoDoubleSlash(DirKey(cs))
    ensures DirKey(cs) == "" || (IsDir(DirKey(cs)) && DirKey(cs)[0] != '/')
  {
    if cs != [] {
      var n := |cs| - 1;
      var up, last := DirKey(cs[..n]), cs[n];
      DirKeyShape(cs[..n]);
      hide DirKey;
      var key := up + last + "/";
      forall i | 0 <= i < |key| - 1
        ensures !(key[i] == '/' && key[i + 1] == '/')
      {
        if i + 1 < |up| {
          assert key[i] == up[i] && key[i + 1] == up[i + 1];
        } else if i + 1 < |up| + |last| {
          assert key[i + 1] == last[i + 1 - |up|];
        } else {
          assert key[i] == last[i - |up|];
        }
      }
      assert key[0] == if up == "" then last[0] else up[0];
    }
  }

  /** ensure_dir's key "a/b/" and the key "/a/b/" that get may use denote the
      same id. */
  lemma BothKeysSameId(t: Tree, cs: seq<string>)
    requires Proper(cs)
    ensures Resolve(t, DirKey(cs)) == Resolve(t, "/" + DirKey(cs)) == Walk(t, t.root, DirNames(cs))
  {
    DirKeyShape(cs);
    DirKeyChain(cs);
    LeadingSlashSameChain(DirKey(cs));
  }

  lemma ProperPrefix(cs: seq<string>, n: nat)
    requires Proper(cs) && n <= |cs|
    ensures Proper(cs[..n])
  {
  }

  lemma NoNames()
    ensures DirNames([]) == [] && DirKey([]) == "" && Chain("") == []
  {
  }

  // ---------------------------------------------------------------------
  // The service, as the PathQuery contract has it.

  class Service {
    var tree: Tree
    ghost var queries: nat                   // calls of query so far
    ghost var created: seq<(Id, string)>     // calls of create_dir so far
    ghost var failures: seq<Error>           // errors answered so far

    constructor (tree: Tree)
      ensures this.tree == tree && queries == 0 && created == [] && failures == []
    {
      this.tree, queries, created, failures := tree, 0, [], [];
    }

    method Root() returns (r: Result<Id>)
      modifies this`failures
      ensures failures == old(failures) + Failure(r)
      ensures r.Ok? ==> r.value == tree.root
    {
      var failure: Option<Error> := *;
      r := match failure case Some(e) => Err(e) case None => Ok(tree.root);
      failures := failures + Failure(r);
    }

    method Query(parent: Id, name: string) returns (r: Result<Option<Id>>)
      modifies this`queries, this`failures
      ensures queries == old(queries) + 1 && failures == old(failures) + Failure(r)
      ensures r.Ok? ==> r.value == if (parent, name) in tree.kids then Some(tree.kids[(parent, name)]) else None
    {
      queries := queries + 1;
      var failure: Option<Error> := *;
      r := match failure
        case Some(e) => Err(e)
        case None => Ok(if (parent, name) in tree.kids then Some(tree.kids[(parent, name)]) else None);
      failures := failures + Failure(r);
    }

    /** The service picks the id. A failure may come before or after the effect. */
    method CreateDir(parent: Id, name: string) returns (r: Result<Id>)
      modifies this`tree, this`created, this`failures
      ensures created == old(created) + [(parent, name)] && failures == old(failures) + Failure(r)
      ensures r.Ok? ==> tree == Gain(old(tree), parent, name, r.value)
      ensures tree == old(tree) || exists id :: tree == Gain(old(tree), parent, name, id)
    {
      created := created + [(parent, name)];
      var failure: Option<Error> := *;
      var early: bool := *;
      if failure.Some? && early {
        r := Err(failure.value);
      } else {
        var id: Id := *;
        tree := Gain(tree, parent, name, id);
        r := if failure.Some? then Err(failure.value) else Ok(id);
      }
      failures := failures + Failure(r);
    }
  }

  /** The error of an answer, if it is one. */
  function Failure<T>(r: Result<T>): seq<Error> { if r.Err? then [r.error] else [] }

  /** The id of the directory with components cs. */
  function DirId(t: Tree, cs: seq<string>): Option<Id> { Walk(t, t.root, DirNames(cs)) }

  lemma DirIdStep(t: Tree, cs: seq<string>, k: nat)
    requires k < |cs|
    ensures DirId(t, cs[..k + 1])
         == match DirId(t, cs[..k])
            case None => None
            case Some(x) => if (x, cs[k] + "/") in t.kids then Some(t.kids[(x, cs[k] + "/")]) else None
  {
    assert cs[..k + 1] == cs[..k] + [cs[k]];
    NamesAppend(cs[..k], cs[k]);
    WalkSnoc(t, t.root, DirNames(cs[..k]), cs[k] + "/");
  }

  lemma DirIdMonotone(t: Tree, t': Tree, cs: seq<string>)
    requires Extends(t, t')
    ensures DirId(t, cs).Some? ==> DirId(t', cs) == DirId(t, cs)
  {
    WalkMonotone(t, t', t.root, DirNames(cs));
  }

  lemma RootIds(t: Tree, cs: seq<string>)
    ensures Resolve(t, "/") == Resolve(t, "") == Some(t.root) && DirId(t, cs[..0]) == Some(t.root)
  {
  }

  lemma DirIdKey(t: Tree, cs: seq<string>)
    requires Proper(cs)
    ensures Resolve(t, DirKey(cs)) == DirId(t, cs)
  {
    DirKeyChain(cs);
  }

  lemma {:induction false} DirIdPrefix(t: Tree, cs: seq<string>, k: nat)
    requires k <= |cs| && DirId(t, cs[..k]) == None
    ensures DirId(t, cs) == None
    decreases |cs| - k
  {
    if k == |cs| {
      assert cs[..k] == cs;
    } else {
      DirIdStep(t, cs, k);
      DirIdPrefix(t, cs, k + 1);
    }
  }

  lemma GainExtends(t: Tree, t': Tree, parent: Id, name: string)
    requires (parent, name) !in t.kids
    requires t' == t || exists id :: t' == Gain(t, parent, name, id)
    ensures Extends(t, t')
  {
  }

  lemma CreatedId(t: Tree, cs: seq<string>, k: nat, parent: Id, id: Id)
    requires Proper(cs) && k < |cs| && DirId(t, cs[..k]) == Some(parent) && (parent, cs[k] + "/") !in t.kids
    ensures
      var t' := Gain(t, parent, cs[k] + "/", id);
      && (parent, cs[k] + "/") in t'.kids
      && DirId(t', cs[..k + 1]) == Resolve(t', DirKey(cs[..k + 1])) == Some(id)
  {
    hide DirId, Resolve, DirKey;
    var t' := Gain(t, parent, cs[k] + "/", id);
    GainExtends(t, t', parent, cs[k] + "/");
    DirIdMonotone(t, t', cs[..k]);
    DirIdStep(t', cs, k);
    DirIdKey(t', cs[..k + 1]);
  }

  /** From t0 to t exactly these pairs were asked for: each once, absent from t0
      and there by now, and nothing else came to be. */
  ghost predicate Made(t0: Tree, t: Tree, made: seq<(Id, string)>) {
    && Extends(t0, t) && Distinct(made) && (forall p <- made :: p !in t0.kids && p in t.kids)
    && t.kids.Keys <= t0.kids.Keys + set p <- made
  }

  /** The pair is directory number k of the components, under its parent. */
  ghost predicate IsDirAt(t: Tree, cs: seq<string>, k: nat, p: (Id, string)) {
    k < |cs| && DirId(t, cs[..k]) == Some(p.0) && p.1 == cs[k] + "/"
  }

  /** All these pairs are directories on the way. */
  ghost predicate OnTheWay(t: Tree, cs: seq<string>, made: seq<(Id, string)>) {
    forall p <- made :: exists k: nat :: IsDirAt(t, cs, k, p)
  }

  /** One round changed the service like that. */
  ghost predicate Round(t: Tree, t': Tree, more: seq<(Id, string)>, ok: bool) {
    && Extends(t, t') && |more| <= 1 && (more == [] ==> t' == t)
    && (forall p <- more :: p !in t.kids && (ok ==> p in t'.kids))
    && t'.kids.Keys <= t.kids.Keys + set p <- more
  }

  lemma CreateIsRound(t: Tree, t': Tree, parent: Id, name: string, ok: bool)
    requires (parent, name) !in t.kids && (t' == t || exists id :: t' == Gain(t, parent, name, id))
    requires ok ==> (parent, name) in t'.kids
    ensures Round(t, t', [(parent, name)], ok)
  {
    GainExtends(t, t', parent, name);
    assert (parent, name) in [(parent, name)];
  }

  lemma QuietIsRound(t: Tree, ok: bool)
    ensures Round(t, t, [], ok)
  {
  }

  /** One more round. */
  lemma MoreMade(t0: Tree, t: Tree, t': Tree, made: seq<(Id, string)>, more: seq<(Id, string)>, ok: bool)
    requires Made(t0, t, made) && Round(t, t', more, ok)
    ensures Extends(t0, t') && Distinct(made + more) && forall p <- made + more :: p !in t0.kids
    ensures t'.kids.Keys <= t0.kids.Keys + set p <- made + more
    ensures ok ==> Made(t0, t', made + more)
    ensures Extends(t, t') && (more == [] ==> t' == t && made + more == made)
  {
    if more != [] {
      assert more[0] in more && more == [more[0]];
      assert forall i :: 0 <= i < |made| ==> made[i] in made;
    }
  }

  lemma MoreOnTheWay(t: Tree, t': Tree, cs: seq<string>, made: seq<(Id, string)>, more: seq<(Id, string)>, k: nat, parent: Id)
    requires OnTheWay(t, cs, made) && Extends(t, t')
    requires k < |cs| && DirId(t, cs[..k]) == Some(parent) && (more == [] || more == [(parent, cs[k] + "/")])
    ensures OnTheWay(t', cs, made + more)
  {
    hide DirId;
    forall p <- made + more
      ensures exists k: nat :: IsDirAt(t', cs, k, p)
    {
      if p in made {
        var j: nat :| IsDirAt(t, cs, j, p);
        DirIdMonotone(t, t', cs[..j]);
        assert IsDirAt(t', cs, j, p);
      } else {
        DirIdMonotone(t, t', cs[..k]);
        assert IsDirAt(t', cs, k, p);
      }
    }
  }

  /** From t0 to t these pairs were asked for, on the way to a directory: each
      once and absent from t0; nothing else came to be, and nothing at all if the
      directory was there. */
  ghost predicate Built(t0: Tree, t: Tree, cs: seq<string>, made: seq<(Id, string)>) {
    && Extends(t0, t) && Distinct(made) && (forall p <- made :: p !in t0.kids)
    && t.kids.Keys <= t0.kids.Keys + (set p <- made)
    && OnTheWay(t, cs, made)
    && (DirId(t0, cs).Some? ==> made == [] && t == t0)
  }

  /** The state after k rounds of ensure_dir that went well. */
  ghost predicate Rounds(cs: seq<string>, k: nat, t0: Tree, t: Tree, made: seq<(Id, string)>, parent: Id) {
    && k <= |cs| && Made(t0, t, made) && OnTheWay(t, cs, made)
    && DirId(t, cs[..k]) == Some(parent)
    && (DirId(t0, cs).Some? ==> made == [] && t == t0)
  }

  lemma StartRounds(t: Tree, cs: seq<string>)
    ensures Rounds(cs, 0, t, t, [], t.root)
  {
    RootIds(t, cs);
  }

  lemma RoundsParent(cs: seq<string>, k: nat, t0: Tree, t: Tree, made: seq<(Id, string)>, parent: Id)
    requires Rounds(cs, k, t0, t, made, parent)
    ensures DirId(t, cs[..k]) == Some(parent)
  {
  }

  lemma NextRound(cs: seq<string>, k: nat, t0: Tree, t: Tree, t': Tree, made: seq<(Id, string)>, more: seq<(Id, string)>, parent: Id, id: Result<Id>)
    requires Rounds(cs, k, t0, t, made, parent) && k < |cs| && Round(t, t', more, id.Ok?)
    requires (more == [] || more == [(parent, cs[k] + "/")]) && (more != [] ==> DirId(t, cs[..k + 1]) == None)
    requires id.Ok? ==> DirId(t', cs[..k + 1]) == Some(id.value)
    ensures Built(t0, t', cs, made + more)
    ensures id.Ok? ==> Rounds(cs, k + 1, t0, t', made + more, id.value)
  {
    hide DirId, Extends, Round, Made, OnTheWay, Distinct;
    MoreMade(t0, t, t', made, more, id.Ok?);
    MoreOnTheWay(t, t', cs, made, more, k, parent);
    if DirId(t, cs[..k + 1]) == None {
      DirIdPrefix(t, cs, k + 1);
    }
  }

  lemma RoundsAreBuilt(cs: seq<string>, t0: Tree, t: Tree, made: seq<(Id, string)>, parent: Id)
    requires Rounds(cs, |cs|, t0, t, made, parent)
    ensures Built(t0, t, cs, made) && DirId(t, cs) == Some(parent)
  {
    assert cs[..|cs|] == cs;
    hide DirId, Extends, OnTheWay, Distinct;
  }

  lemma ExtendsTransitive(a: Tree, b: Tree, c: Tree)
    requires Extends(a, b) && Extends(b, c)
    ensures Extends(a, c)
  {
  }

  ghost predicate KeysOf(parents: seq<string>, cs: seq<string>) {
    |parents| == |cs| && forall k :: 0 <= k < |parents| ==> parents[k] == DirKey(cs[..k + 1])
  }

  lemma DirKeySnoc(cs: seq<string>, c: string)
    ensures DirKey(cs + [c]) == DirKey(cs) + c + "/"
  {
    assert (cs + [c])[..|cs|] == cs;
  }

  lemma KeysOfSnoc(parents: seq<string>, cs: seq<string>, c: string)
    requires KeysOf(parents, cs)
    ensures KeysOf(parents + [DirKey(cs + [c])], cs + [c])
  {
    hide DirKey;
    var all := cs + [c];
    var keys := parents + [DirKey(all)];
    forall k | 0 <= k < |keys|
      ensures keys[k] == DirKey(all[..k + 1])
    {
      if k < |cs| {
        assert all[..k + 1] == cs[..k + 1];
      } else {
        assert all[..k + 1] == all;
      }
    }
  }

  lemma NonEmptySnoc(pieces: seq<string>, i: nat)
    requires i < |pieces|
    ensures NonEmpty(pieces[..i + 1]) == NonEmpty(pieces[..i]) + if pieces[i] == "" then [] else [pieces[i]]
  {
    var one := [pieces[i]];
    assert pieces[..i + 1] == pieces[..i] + one;
    NonEmptyConcat(pieces[..i], one);
    assert one[1..] == [];
  }

  /** The keys ensure_dir visits, built from the pieces of the path. */
  method DirKeys(path: string) returns (parents: seq<string>)
    ensures KeysOf(parents, Components(path))
  {
    var pieces, tmp := Split(path), "";
    parents := [];
    for i := 0 to |pieces|
      invariant tmp == DirKey(NonEmpty(pieces[..i]))
      invariant KeysOf(parents, NonEmpty(pieces[..i]))
    {
      ghost var before := NonEmpty(pieces[..i]);
      NonEmptySnoc(pieces, i);
      hide NonEmpty, DirKey, KeysOf;
      if pieces[i] == "" {
        assert before + [] == before;
      } else {
        DirKeySnoc(before, pieces[i]);
        KeysOfSnoc(parents, before, pieces[i]);
        tmp := tmp + pieces[i] + "/";
        parents := parents + [tmp];
      }
    }
    assert pieces[..|pieces|] == pieces;
  }

  /** What is missing from the cache was dropped by it. */
  ghost predicate Shrunk(cache0: map<string, Id>, dropped0: multiset<string>, cache: map<string, Id>, dropped: multiset<string>) {
    && dropped0 <= dropped && cache.Keys <= cache0.Keys
    && forall k <- cache0 :: k in cache || dropped[k] > dropped0[k]
  }

  /** Each of these paths was not cached or has been dropped. */
  ghost predicate Uncached(cache0: map<string, Id>, dropped0: multiset<string>, dropped: multiset<string>, paths: seq<string>) {
    forall p <- paths :: p in cache0 ==> dropped[p] > dropped0[p]
  }

  /** Looking one more path up in vain, after which the cache shrank again. */
  lemma OneMoreUncached(cache0: map<string, Id>, dropped0: multiset<string>, cache1: map<string, Id>, dropped1: multiset<string>,
                        cache2: map<string, Id>, dropped2: multiset<string>, path: string, paths: seq<string>)
    requires Shrunk(cache0, dropped0, cache1, dropped1) && Shrunk(cache1, dropped1, cache2, dropped2)
    requires Uncached(cache0, dropped0, dropped1, paths) && path !in cache1
    ensures Shrunk(cache0, dropped0, cache2, dropped2) && Uncached(cache0, dropped0, dropped2, [path] + paths)
  {
  }

  lemma UncachedBefore(cache0: map<string, Id>, dropped0: multiset<string>, cache1: map<string, Id>, dropped1: multiset<string>,
                       dropped2: multiset<string>, paths: seq<string>)
    requires Shrunk(cache0, dropped0, cache1, dropped1) && dropped1 <= dropped2
    requires Uncached(cache1, dropped1, dropped2, paths)
    ensures Uncached(cache0, dropped0, dropped2, paths)
  {
    forall p <- paths | p in cache0
      ensures dropped2[p] > dropped0[p]
    {
      assert dropped1[p] <= dropped2[p];
    }
  }

  lemma UncachedMonotone(cache0: map<string, Id>, dropped0: multiset<string>, dropped1: multiset<string>, dropped2: multiset<string>, paths: seq<string>)
    requires Uncached(cache0, dropped0, dropped1, paths) && dropped1 <= dropped2
    ensures Uncached(cache0, dropped0, dropped2, paths)
  {
  }

  /** Each of these keys is cached or has been dropped. */
  ghost predicate Kept(dropped0: multiset<string>, cache: map<string, Id>, dropped: multiset<string>, keys: seq<string>) {
    forall k <- keys :: k in cache || dropped[k] > dropped0[k]
  }

  /** The cache gained at most this key, and what is missing was dropped by it. */
  ghost predicate Grown(cache0: map<string, Id>, dropped0: multiset<string>, cache: map<string, Id>, dropped: multiset<string>, key: string) {
    && dropped0 <= dropped && cache.Keys <= cache0.Keys + {key}
    && forall k <- cache0 :: k in cache || dropped[k] > dropped0[k]
  }

  lemma ShrunkIsGrown(cache0: map<string, Id>, dropped0: multiset<string>, cache: map<string, Id>, dropped: multiset<string>, key: string)
    requires Shrunk(cache0, dropped0, cache, dropped)
    ensures Grown(cache0, dropped0, cache, dropped, key) && (key in cache ==> Kept(dropped0, cache, dropped, [key]))
  {
  }

  /** A key looked up in vain is then stored. */
  lemma ShrunkThenGrown(cache0: map<string, Id>, dropped0: multiset<string>, cache1: map<string, Id>, dropped1: multiset<string>,
                        cache2: map<string, Id>, dropped2: multiset<string>, key: string)
    requires Shrunk(cache0, dropped0, cache1, dropped1) && Grown(cache1, dropped1, cache2, dropped2, key)
    ensures Grown(cache0, dropped0, cache2, dropped2, key)
    ensures Kept(dropped1, cache2, dropped2, [key]) ==> Kept(dropped0, cache2, dropped2, [key])
  {
    assert forall k :: dropped0[k] <= dropped1[k] <= dropped2[k];
    assert key in [key];
  }

  /** One more key is cached or dropped, and no other one goes unless dropped. */
  lemma KeptMore(dropped0: multiset<string>, cache1: map<string, Id>, dropped1: multiset<string>,
                 cache2: map<string, Id>, dropped2: multiset<string>, keys: seq<string>, key: string)
    requires dropped0 <= dropped1 && Kept(dropped0, cache1, dropped1, keys)
    requires Kept(dropped1, cache2, dropped2, [key]) && Grown(cache1, dropped1, cache2, dropped2, key)
    ensures Kept(dropped0, cache2, dropped2, keys + [key]) && dropped0 <= dropped2
  {
    assert key in [key];
    forall k <- keys + [key]
      ensures k in cache2 || dropped2[k] > dropped0[k]
    {
      assert dropped0[k] <= dropped1[k] <= dropped2[k];
    }
  }

  /** The cache gained at most some of these keys. */
  ghost predicate Within(cache0: map<string, Id>, cache: map<string, Id>, keys: seq<string>) {
    forall k <- cache :: k in cache0 || k in keys
  }

  /** The cache after k of these keys were visited. */
  ghost predicate Visited(cache0: map<string, Id>, dropped0: multiset<string>, cache: map<string, Id>, dropped: multiset<string>, keys: seq<string>, k: nat) {
    k <= |keys| && dropped0 <= dropped && Within(cache0, cache, keys) && Kept(dropped0, cache, dropped, keys[..k])
  }

  lemma StartVisits(cache: map<string, Id>, dropped: multiset<string>, keys: seq<string>)
    ensures Visited(cache, dropped, cache, dropped, keys, 0)
  {
  }

  lemma NextVisit(cache0: map<string, Id>, dropped0: multiset<string>, cache1: map<string, Id>, dropped1: multiset<string>,
                  cache2: map<string, Id>, dropped2: multiset<string>, keys: seq<string>, k: nat)
    requires Visited(cache0, dropped0, cache1, dropped1, keys, k) && k < |keys|
    requires Grown(cache1, dropped1, cache2, dropped2, keys[k])
    ensures dropped0 <= dropped2 && Within(cache0, cache2, keys)
    ensures Kept(dropped1, cache2, dropped2, [keys[k]]) ==> Visited(cache0, dropped0, cache2, dropped2, keys, k + 1)
  {
    assert keys[k] in keys;
    if Kept(dropped1, cache2, dropped2, [keys[k]]) {
      KeptMore(dropped0, cache1, dropped1, cache2, dropped2, keys[..k], keys[k]);
      assert keys[..k + 1] == keys[..k] + [keys[k]];
    }
  }

  lemma AllVisited(cache0: map<string, Id>, dropped0: multiset<string>, cache: map<string, Id>, dropped: multiset<string>, keys: seq<string>)
    requires Visited(cache0, dropped0, cache, dropped, keys, |keys|)
    ensures dropped0 <= dropped && Within(cache0, cache, keys) && Kept(dropped0, cache, dropped, keys)
  {
    assert keys[..|keys|] == keys;
  }

  lemma KeptBefore(dropped0: multiset<string>, dropped1: multiset<string>, cache: map<string, Id>, dropped: multiset<string>, keys: seq<string>)
    requires dropped0 <= dropped1 && Kept(dropped1, cache, dropped, keys)
    ensures Kept(dropped0, cache, dropped, keys)
  {
    assert forall k <- keys :: dropped0[k] <= dropped1[k];
  }

  lemma RelativeKey(cs: seq<string>, k: nat)
    requires Proper(cs) && k < |cs|
    ensures var key := DirKey(cs[..k + 1]); key != "" && key[0] != '/'
  {
    ProperPrefix(cs, k + 1);
    DirKeyShape(cs[..k + 1]);
    DirKeyStep(cs[..k + 1]);
  }

  lemma KeysAreRelative(parents: seq<string>, cs: seq<string>)
    requires Proper(cs) && KeysOf(parents, cs)
    ensures forall key <- parents :: key != "" && key[0] != '/'
  {
    forall k | 0 <= k < |parents|
      ensures parents[k] != "" && parents[k][0] != '/'
    {
      RelativeKey(cs, k);
    }
  }

  /** The keys ensure_dir visits are absolute, as cached paths are said to be,
      exactly if there are none. */
  lemma KeysAbsoluteExactly(path: string, parents: seq<string>)
    requires KeysOf(parents, Components(path))
    ensures (forall key <- parents :: key != "" && key[0] == '/') <==> Components(path) == []
  {
    ComponentsProper(path);
    if Components(path) != [] {
      RelativeKey(Components(path), 0);
      assert parents[0] in parents;
    }
  }

  class PathCacher {
    const service: Service
    var cache: map<string, Id>
    ghost var dropped: multiset<string>  // the keys the cache dropped by itself so far

    constructor (service: Service)
      ensures this.service == service && cache == map[] && dropped == multiset{}
    {
      this.service, cache, dropped := service, map[], multiset{};
    }

    ghost predicate Valid()
      reads this, service
    {
      Sound(service.tree, cache)
    }

    /** What the cache may do by itself at any moment. */
    method Evict()
      modifies this
      ensures exists gone :: gone <= old(cache).Keys && cache == old(cache) - gone && dropped == old(dropped) + multiset(gone)
    {
      var gone: set<string> := *;
      gone := gone * cache.Keys;
      cache := cache - gone;
      dropped := dropped + multiset(gone);
    }

    method Lookup(key: string) returns (r: Option<Id>)
      requires Valid()
      modifies this
      ensures Valid() && Shrunk(old(cache), old(dropped), cache, dropped)
      ensures r == if key in cache then Some(cache[key]) else None
      ensures r.Some? ==> Resolve(service.tree, key) == r
    {
      Evict();
      return if key in cache then Some(cache[key]) else None;
    }

    method Store(key: string, id: Id)
      requires Valid() && Resolve(service.tree, key) == Some(id)
      modifies this
      ensures Valid() && Grown(old(cache), old(dropped), cache, dropped, key)
      ensures Kept(old(dropped), cache, dropped, [key])
    {
      cache := cache[key := id];
      Evict();
    }

    /** An entry that is there stays, and otherwise the new one is kept, unless
        the cache drops it. The cache remains right exactly if the caller knows the
        path's id or nothing is kept. */
    method Insert(path: string, id: Id)
      requires Valid()
      modifies this
      ensures forall k <- cache :: (k in old(cache) && cache[k] == old(cache)[k]) || (k == path && cache[k] == id)
      ensures path in cache || dropped[path] > old(dropped)[path]
      ensures path in cache && dropped[path] == old(dropped)[path] ==>
                cache[path] == if path in old(cache) then old(cache)[path] else id
      ensures forall k <- old(cache) :: k in cache || dropped[k] > old(dropped)[k]
      ensures Valid() <==> (path in cache ==> Resolve(service.tree, path) == Some(cache[path]))
    {
      Evict();
      if path in cache {
        return;
      }
      cache := cache[path := id];
      Evict();
    }

    /** Drops the entry of exactly this path. */
    method Remove(path: string)
      requires Valid()
      modifies this
      ensures Valid() && cache == old(cache) - {path}
    {
      cache := cache - {path};
    }

    /** Ask for one path after the other, from the id of `from` down to `path`. */
    method QueryDown(ghost from: string, start: Id, paths: seq<string>, ghost path: string) returns (r: Result<Option<Id>>)
      requires Valid()
      requires Leads(from, paths, path) && Resolve(service.tree, from) == Some(start)
      modifies this, service`queries, service`failures
      ensures Valid() && old(dropped) <= dropped
      ensures r.Ok? ==> r.value == Resolve(service.tree, path)
      ensures service.queries <= old(service.queries) + |paths|
      ensures service.failures == old(service.failures) + Failure(r)
      ensures r.Ok? && r.value.Some? ==> Kept(old(dropped), cache, dropped, paths)
    {
      var current := start;
      ghost var at := from;
      StartVisits(cache, dropped, paths);
      for k := 0 to |paths|
        invariant Valid() && Resolve(service.tree, at) == Some(current)
        invariant Leads(at, paths[k..], path)
        invariant service.queries <= old(service.queries) + k && service.failures == old(service.failures)
        invariant Visited(old(cache), old(dropped), cache, dropped, paths, k)
      {
        hide Resolve, Sound, Kept, Grown, Within, GetBasename, GetParent;
        ghost var cache1, dropped1 := cache, dropped;
        assert paths[k..][0] == paths[k] && paths[k..][1..] == paths[k + 1..];
        ResolveStep(service.tree, paths[k]);
        var q := service.Query(current, GetBasename(paths[k]));
        match q {
          case Err(e) => return Err(e);
          case Ok(None) =>
            MissingAbove(service.tree, paths[k], paths[k + 1..], path);
            return Ok(None);
          case Ok(Some(id)) =>
            Store(paths[k], id);
            NextVisit(old(cache), old(dropped), cache1, dropped1, cache, dropped, paths, k);
            current, at := id, paths[k];
        }
      }
      AllVisited(old(cache), old(dropped), cache, dropped, paths);
      return Ok(Some(current));
    }

    /** From a path that is not cached up to its nearest ancestor that is, or to
        the root, collecting the paths on the way. */
    method Climb(path: string) returns (hit: Option<Id>, current: string, paths: seq<string>)
      requires Valid() && path !in cache
      modifies this
      ensures Valid() && old(dropped) <= dropped && Leads(current, paths, path)
      ensures if hit.Some? then current in old(cache) && Resolve(service.tree, current) == hit else current in {"", "/"}
      ensures Uncached(old(cache), old(dropped), dropped, paths)
    {
      assert Shrunk(cache, dropped, cache, dropped) && Uncached(cache, dropped, dropped, []);
      hit, current, paths := None, path, [];
      while current != "/" && current != ""
        invariant Valid() && Shrunk(old(cache), old(dropped), cache, dropped)
        invariant Leads(current, paths, path) && current !in cache && hit == None
        invariant Uncached(old(cache), old(dropped), dropped, paths)
        decreases if current == "/" then 0 else |current|
      {
        hide Resolve, Uncached, Leads, GetBasename;
        ghost var cache1, dropped1 := cache, dropped;
        LeadsUp(current, paths, path);
        hit := Lookup(GetParent(current));
        OneMoreUncached(old(cache), old(dropped), cache1, dropped1, cache, dropped, current, paths);
        paths := [current] + paths;
        current := GetParent(current);
        if hit.Some? {
          return;
        }
      }
    }

    /** `anchor` is the nearest ancestor of the path (or the path itself) that
        was cached, or the root, and `below` are the paths from there down: each
        of these was missing from the cache or dropped by it during the call, and
        costs at most one query. */
    method Get(path: string) returns (r: Result<Option<Id>>, ghost anchor: string, ghost below: seq<string>)
      requires Valid()
      modifies this, service`queries, service`failures
      ensures Valid()
      ensures r.Ok? ==> r.value == Resolve(service.tree, path)
      ensures Leads(anchor, below, path) && |Chain(path)| == |Chain(anchor)| + |below|
      ensures anchor in old(cache) || anchor in {"", "/"}
      ensures Uncached(old(cache), old(dropped), dropped, below)
      ensures service.queries <= old(service.queries) + |below|
      ensures service.failures == old(service.failures) + Failure(r)
      ensures r.Ok? && r.value.Some? ==> Kept(old(dropped), cache, dropped, below)
    {
      RootIds(service.tree, []);
      anchor, below := path, [];
      var hit := Lookup(path);
      hide Resolve, GetParent, GetBasename, Chain, Sound;
      if hit.Some? {
        return Ok(hit), anchor, below;
      }
      ghost var cache1, dropped1 := cache, dropped;
      var current, paths;
      hit, current, paths := Climb(path);
      anchor, below := current, paths;
      LeadsLength(anchor, below, path);
      UncachedBefore(old(cache), old(dropped), cache1, dropped1, dropped, paths);
      hide Leads, Uncached, Shrunk;
      ghost var dropped2 := dropped;
      ghost var dropped3 := dropped;
      if hit.Some? {
        r := QueryDown(current, hit.value, paths, path);
      } else {
        var root := service.Root();
        if root.Err? {
          return Err(root.error), anchor, below;
        }
        Store("/", root.value);
        dropped3 := dropped;
        r := QueryDown(current, root.value, paths, path);
      }
      UncachedMonotone(old(cache), old(dropped), dropped2, dropped, paths);
      if r.Ok? && r.value.Some? {
        KeptBefore(old(dropped), dropped3, cache, dropped, paths);
      }
    }

    /** Create a directory that is missing, and keep its id. */
    method CreateOne(ghost cs: seq<string>, ghost k: nat, key: string, parent: Id) returns (r: Result<Id>)
      requires Valid() && Proper(cs) && k < |cs| && key == DirKey(cs[..k + 1]) && GetBasename(key) == cs[k] + "/"
      requires DirId(service.tree, cs[..k]) == Some(parent) && (parent, cs[k] + "/") !in service.tree.kids
      modifies this, service
      ensures Valid() && Round(old(service.tree), service.tree, [(parent, cs[k] + "/")], r.Ok?)
      ensures service.created == old(service.created) + [(parent, cs[k] + "/")]
      ensures service.failures == old(service.failures) + Failure(r)
      ensures r.Ok? ==> DirId(service.tree, cs[..k + 1]) == Some(r.value)
      ensures Grown(old(cache), old(dropped), cache, dropped, key)
      ensures r.Ok? ==> Kept(old(dropped), cache, dropped, [key])
    {
      hide Resolve, DirId, DirKey, GetBasename, Sound, Extends, Gain, Round, Kept, Proper, Walk;
      r := service.CreateDir(parent, GetBasename(key));
      GainExtends(old(service.tree), service.tree, parent, cs[k] + "/");
      SoundMonotone(old(service.tree), service.tree, cache);
      if r.Ok? {
        CreatedId(old(service.tree), cs, k, parent, r.value);
        Store(key, r.value);
      }
      CreateIsRound(old(service.tree), service.tree, parent, cs[k] + "/", r.Ok?);
    }

    /** One round of ensure_dir: directory number k of the components cs. */
    method EnsureOne(ghost cs: seq<string>, ghost k: nat, key: string, parent: Id)
      returns (r: Result<Id>, ghost made: seq<(Id, string)>)
      requires Valid() && Proper(cs) && k < |cs| && key == DirKey(cs[..k + 1])
      requires DirId(service.tree, cs[..k]) == Some(parent)
      modifies this, service
      ensures Valid() && Round(old(service.tree), service.tree, made, r.Ok?)
      ensures service.created == old(service.created) + made
      ensures made == [] || made == [(parent, cs[k] + "/")]
      ensures made != [] ==> DirId(old(service.tree), cs[..k + 1]) == None
      ensures r.Ok? ==> DirId(service.tree, cs[..k + 1]) == Some(r.value)
      ensures service.failures == old(service.failures) + Failure(r)
      ensures Grown(old(cache), old(dropped), cache, dropped, key)
      ensures r.Ok? ==> Kept(old(dropped), cache, dropped, [key])
    {
      made := [];
      QuietIsRound(service.tree, true);
      QuietIsRound(service.tree, false);
      DirIdStep(service.tree, cs, k);
      DirIdKey(service.tree, cs[..k + 1]);
      DirKeyStep(cs[..k + 1]);
      assert GetBasename(key) == cs[k] + "/";
      hide Resolve, DirId, DirKey, GetBasename, GetParent, Sound, Extends, Gain, Round, Kept, Shrunk, Grown, Walk, Proper;
      var known := Lookup(key);
      ghost var cache1, dropped1 := cache, dropped;
      ShrunkIsGrown(old(cache), old(dropped), cache, dropped, key);
      if known.Some? {
        return Ok(known.value), made;
      }
      var q := service.Query(parent, GetBasename(key));
      match q {
        case Err(e) => return Err(e), made;
        case Ok(Some(id)) =>
          Store(key, id);
          ShrunkThenGrown(old(cache), old(dropped), cache1, dropped1, cache, dropped, key);
          return Ok(id), made;
        case Ok(None) =>
          made := [(parent, cs[k] + "/")];
          r := CreateOne(cs, k, key, parent);
          ShrunkThenGrown(old(cache), old(dropped), cache1, dropped1, cache, dropped, key);
      }
    }

    /** The rounds of ensure_dir, from the id of the root down. */
    method EnsureFrom(ghost cs: seq<string>, parents: seq<string>, root: Id) returns (r: Result<Id>, ghost made: seq<(Id, string)>)
      requires Valid() && Proper(cs) && KeysOf(parents, cs) && root == service.tree.root
      modifies this, service
      ensures Valid() && Built(old(service.tree), service.tree, cs, made)
      ensures service.created == old(service.created) + made
      ensures r.Ok? ==> DirId(service.tree, cs) == Some(r.value)
      ensures service.failures == old(service.failures) + Failure(r)
      ensures old(dropped) <= dropped && Within(old(cache), cache, parents)
      ensures r.Ok? ==> Kept(old(dropped), cache, dropped, parents)
    {
      made := [];
      var parent := root;
      StartRounds(service.tree, cs);
      StartVisits(cache, dropped, parents);
      assert forall k :: 0 <= k < |parents| ==> parents[k] == DirKey(cs[..k + 1]);
      hide Rounds, Built, DirId, DirKey, Sound, Within, Kept, Round, Grown, KeysOf, Proper, Visited;
      for k := 0 to |parents|
        invariant Valid() && Rounds(cs, k, old(service.tree), service.tree, made, parent)
        invariant service.created == old(service.created) + made && service.failures == old(service.failures)
        invariant Visited(old(cache), old(dropped), cache, dropped, parents, k)
      {
        ghost var t, cache1, dropped1 := service.tree, cache, dropped;
        RoundsParent(cs, k, old(service.tree), t, made, parent);
        var id, more := EnsureOne(cs, k, parents[k], parent);
        NextRound(cs, k, old(service.tree), t, service.tree, made, more, parent, id);
        NextVisit(old(cache), old(dropped), cache1, dropped1, cache, dropped, parents, k);
        Associate(old(service.created), made, more);
        made := made + more;
        if id.Err? {
          return Err(id.error), made;
        }
        parent := id.value;
      }
      RoundsAreBuilt(cs, old(service.tree), service.tree, made, parent);
      AllVisited(old(cache), old(dropped), cache, dropped, parents);
      return Ok(parent), made;
    }

    /** Ensure a directory, in the order of its components; `made` are the pairs
        for which the service was asked to create a directory. */
    method EnsureDir(path: string) returns (r: Result<Id>, ghost made: seq<(Id, string)>)
      requires Valid()
      modifies this, service
      ensures Valid() && Extends(old(service.tree), service.tree)
      ensures service.created == old(service.created) + made && Distinct(made)
      ensures forall p <- made :: p !in old(service.tree).kids
      ensures service.tree.kids.Keys <= old(service.tree).kids.Keys + set p <- made
      ensures OnTheWay(service.tree, Components(path), made)
      ensures r.Ok? ==> DirId(service.tree, Components(path)) == Some(r.value)
      ensures DirId(old(service.tree), Components(path)).Some? ==>
                made == [] && service.tree == old(service.tree)
      ensures service.failures == old(service.failures) + Failure(r)
      ensures forall key <- cache :: key in old(cache) || (key != "" && key[0] != '/')
      ensures r.Ok? ==> forall keys :: KeysOf(keys, Components(path)) ==> Kept(old(dropped), cache, dropped, keys)
    {
      made := [];
      var parents := DirKeys(path);
      ghost var cs := Components(path);
      ComponentsProper(path);
      RootIds(service.tree, cs);
      KeysAreRelative(parents, cs);
      hide DirId, Resolve, DirKey, Components, Sound;
      var known := Lookup("/");
      var root: Id;
      if known.Some? {
        root := known.value;
      } else {
        var answer := service.Root();
        if answer.Err? {
          return Err(answer.error), made;
        }
        root := answer.value;
      }
      ghost var dropped1 := dropped;
      hide Made, Extends, OnTheWay, Distinct;
      r, made := EnsureFrom(cs, parents, root);
      if r.Ok? {
        KeptBefore(old(dropped), dropped1, cache, dropped, parents);
        assert forall keys :: KeysOf(keys, cs) ==> keys == parents;
      }
    }
  }

  /** Ensuring a directory that is there, as it is after an earlier call that
      succeeded, creates nothing and gives its id, whatever the cache drops. */
  method EnsureAgain(c: PathCacher, path: string) returns (r: Result<Id>)
    requires c.Valid() && DirId(c.service.tree, Components(path)).Some?
    modifies c, c.service
    ensures c.Valid() && c.service.tree == old(c.service.tree) && c.service.created == old(c.service.created)
    ensures r.Ok? ==> DirId(old(c.service.tree), Components(path)) == Some(r.value)
    ensures c.service.failures == old(c.service.failures) + Failure(r)
  {
    hide DirId, Components;
    c.Evict();
    ghost var made;
    r, made := c.EnsureDir(path);
  }

  /** Two calls in a row ask the service for each directory at most once and
      only if it was missing, and give the same id. */
  method EnsureTwice(c: PathCacher, path: string) returns (first: Result<Id>, second: Result<Id>)
    requires c.Valid()
    modifies c, c.service
    ensures c.Valid() && Extends(old(c.service.tree), c.service.tree)
    ensures first.Ok? ==>
              && old(c.service.created) <= c.service.created
              && Distinct(c.service.created[|old(c.service.created)|..])
              && (forall p <- c.service.created[|old(c.service.created)|..] :: p !in old(c.service.tree).kids)
              && DirId(c.service.tree, Components(path)) == Some(first.value)
              && (second.Ok? ==> second == first)
  {
    hide DirId, Components;
    ghost var made;
    first, made := c.EnsureDir(path);
    if first.Ok? {
      second := EnsureAgain(c, path);
      assert c.service.created[|old(c.service.created)|..] == made;
    } else {
      second := first;
    }
  }
}
