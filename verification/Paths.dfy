/**
 The path algebra of core/src/raw/path.rs. Strings are sequences of characters;
 every cut the source makes is next to a '/', so byte and character positions
 cut alike.
 */
module Paths {
  import opened Common

  /** The characters of Unicode's White_Space property. */
  predicate IsSpace(c: char) {
    || '\t' <= c <= '\r' || c == ' ' || c == '\U{0085}' || c == '\U{00A0}' || c == '\U{1680}'
    || '\U{2000}' <= c <= '\U{200A}' || c == '\U{2028}' || c == '\U{2029}' || c == '\U{202F}'
    || c == '\U{205F}' || c == '\U{3000}'
  }

  function TrimStart(s: string): string {
    if s != "" && IsSpace(s[0]) then TrimStart(s[1..]) else s
  }

  function TrimEnd(s: string): string {
    if s != "" && IsSpace(s[|s| - 1]) then TrimEnd(s[..|s| - 1]) else s
  }

  function Trim(s: string): string { TrimEnd(TrimStart(s)) }

  function StripSlashes(s: string): string {
    if s != "" && s[0] == '/' then StripSlashes(s[1..]) else s
  }

  predicate IsDir(s: string) { s != "" && s[|s| - 1] == '/' }

  /** The index of the first '/', or |s|. */
  function FirstSlash(s: string): (i: nat)
    ensures i <= |s| && (forall j :: 0 <= j < i ==> s[j] != '/')
    ensures i < |s| ==> s[i] == '/'
  {
    if s == "" || s[0] == '/' then 0 else 1 + FirstSlash(s[1..])
  }

  /** The number of characters up to and including the last '/', or 0. */
  function PastLastSlash(s: string): (n: nat)
    ensures n <= |s| && (forall j :: n <= j < |s| ==> s[j] != '/')
    ensures n > 0 ==> s[n - 1] == '/'
  {
    if IsDir(s) || s == "" then |s| else PastLastSlash(s[..|s| - 1])
  }

  function Split(s: string): seq<string> {
    var i := FirstSlash(s);
    if i == |s| then [s] else [s[..i]] + Split(s[i + 1..])
  }

  function NonEmpty(cs: seq<string>): seq<string> {
    if cs == [] then []
    else if cs[0] == "" then NonEmpty(cs[1..])
    else [cs[0]] + NonEmpty(cs[1..])
  }

  function Join(cs: seq<string>): string {
    if cs == [] then "" else if |cs| == 1 then cs[0] else cs[0] + "/" + Join(cs[1..])
  }

  function Components(s: string): seq<string> { NonEmpty(Split(s)) }

  /** Joining the components again and putting the slash back at the end. */
  function Rebuild(p: string): string { Join(Components(p)) + if IsDir(p) then "/" else "" }

  function NormalizePath(path: string): string {
    var p := StripSlashes(Trim(path));
    if p == "" then "/" else Rebuild(p)
  }

  function NormalizeRoot(root: string): string {
    var v := Join(Components(root));
    var v := if v != "" && v[0] == '/' then v else "/" + v;
    if IsDir(v) then v else v + "/"
  }

  function BuildAbsPath(root: string, path: string): string
    requires root != ""
  {
    if path == "/" then root[1..] else root[1..] + path
  }

  function BuildRootedAbsPath(root: string, path: string): string {
    if path == "/" then root else root + path
  }

  function BuildRelPath(root: string, path: string): string
    requires if path != "" && path[0] == '/' then root <= path else root != "" && root[1..] <= path
  {
    if path != "" && path[0] == '/' then path[|root|..] else path[|root| - 1..]
  }

  function GetBasename(path: string): string {
    if path == "/" then "/"
    else if !IsDir(path) then path[PastLastSlash(path)..]
    else path[PastLastSlash(path[..|path| - 1])..]
  }

  function GetParent(path: string): string {
    if path == "/" then "/"
    else
      var n := PastLastSlash(if IsDir(path) then path[..|path| - 1] else path);
      if n == 0 then "/" else path[..n]
  }

  // ---------------------------------------------------------------------
  // Splitting and joining.

  predicate Slashless(s: string) { forall j :: 0 <= j < |s| ==> s[j] != '/' }

  /** What a list of components is made of. */
  predicate Proper(cs: seq<string>) {
    forall k :: 0 <= k < |cs| ==> cs[k] != "" && Slashless(cs[k])
  }

  ghost predicate NoDoubleSlash(s: string) {
    forall i :: 0 <= i < |s| - 1 ==> !(s[i] == '/' && s[i + 1] == '/')
  }

  lemma FirstSlashIs(s: string, i: nat)
    requires i <= |s| && (forall j :: 0 <= j < i ==> s[j] != '/') && (i < |s| ==> s[i] == '/')
    ensures FirstSlash(s) == i
  {
  }

  lemma PastLastSlashIs(s: string, n: nat)
    requires n <= |s| && (forall j :: n <= j < |s| ==> s[j] != '/') && (n > 0 ==> s[n - 1] == '/')
    ensures PastLastSlash(s) == n
  {
    var m := PastLastSlash(s);
    hide PastLastSlash;
    assert m <= n && n <= m;
  }

  lemma SplitAt(s: string, head: string, tail: string)
    requires Slashless(head) && s == head + "/" + tail
    ensures Split(s) == [head] + Split(tail)
  {
    FirstSlashIs(s, |head|);
    assert s[..|head|] == head && s[|head| + 1..] == tail;
  }

  lemma Regroup(a: string, b: string, c: string)
    ensures (a + "/" + b) + "/" + c == a + "/" + (b + "/" + c)
  {
  }

  lemma SplitSlashless(s: string)
    requires Slashless(s)
    ensures Split(s) == [s]
  {
    FirstSlashIs(s, |s|);
  }

  lemma {:induction false} SplitConcat(x: string, y: string)
    ensures Split(x + "/" + y) == Split(x) + Split(y)
  {
    hide Split;
    var i := FirstSlash(x);
    if i == |x| {
      SplitSlashless(x);
      SplitAt(x + "/" + y, x, y);
    } else {
      var head, tail := x[..i], x[i + 1..];
      assert x == head + "/" + tail;
      SplitConcat(tail, y);
      SplitAt(x, head, tail);
      Regroup(head, tail, y);
      SplitAt(x + "/" + y, head, tail + "/" + y);
      Associate([head], Split(tail), Split(y));
    }
  }

  lemma {:induction false} NonEmptyConcat(a: seq<string>, b: seq<string>)
    ensures NonEmpty(a + b) == NonEmpty(a) + NonEmpty(b)
  {
    if a == [] {
      assert a + b == b;
    } else {
      var rest := a[1..];
      NonEmptyConcat(rest, b);
      assert (a + b)[1..] == rest + b;
      assert NonEmpty(a + b) == if a[0] == "" then NonEmpty(rest + b) else [a[0]] + NonEmpty(rest + b);
      Associate([a[0]], NonEmpty(rest), NonEmpty(b));
    }
  }

  lemma ComponentsConcat(x: string, y: string)
    ensures Components(x + "/" + y) == Components(x) + Components(y)
  {
    SplitConcat(x, y);
    NonEmptyConcat(Split(x), Split(y));
  }

  lemma ComponentsOfSlashless(s: string)
    requires Slashless(s)
    ensures Components(s) == if s == "" then [] else [s]
  {
    FirstSlashIs(s, |s|);
    assert NonEmpty([s]) == (if s == "" then [] else [s]) + NonEmpty([s][1..]);
  }

  lemma ComponentsOfDir(s: string)
    ensures Components(s + "/") == Components(s)
  {
    ComponentsConcat(s, "");
    ComponentsOfSlashless("");
    assert s + "/" + "" == s + "/";
  }

  lemma {:induction false} ComponentsProper(s: string)
    ensures Proper(Components(s))
    decreases |s|
  {
    var i := FirstSlash(s);
    if i == |s| {
      ComponentsOfSlashless(s);
    } else {
      ComponentsProper(s[i + 1..]);
      assert s == s[..i] + "/" + s[i + 1..];
      ComponentsConcat(s[..i], s[i + 1..]);
      ComponentsOfSlashless(s[..i]);
    }
  }

  lemma {:induction false} ComponentsOfJoin(cs: seq<string>)
    requires Proper(cs)
    ensures Components(Join(cs)) == cs
  {
    if cs == [] {
      ComponentsOfSlashless("");
    } else if |cs| == 1 {
      ComponentsOfSlashless(cs[0]);
    } else {
      ComponentsOfJoin(cs[1..]);
      ComponentsConcat(cs[0], Join(cs[1..]));
      ComponentsOfSlashless(cs[0]);
      assert cs == [cs[0]] + cs[1..];
    }
  }

  lemma GlueShape(c: string, t: string)
    requires c != "" && Slashless(c) && t != "" && t[0] != '/' && NoDoubleSlash(t)
    ensures var s := c + "/" + t; s[0] == c[0] != '/' && NoDoubleSlash(s) && s[|s| - 1] == t[|t| - 1]
  {
    var s := c + "/" + t;
    forall i | 0 <= i < |s| - 1
      ensures !(s[i] == '/' && s[i + 1] == '/')
    {
      if i > |c| {
        assert s[i] == t[i - |c| - 1] && s[i + 1] == t[i - |c|];
      }
    }
  }

  lemma {:induction false} JoinShape(cs: seq<string>)
    requires Proper(cs) && cs != []
    ensures cs[0] != "" && cs[|cs| - 1] != ""
    ensures var s := Join(cs); s != "" && s[0] == cs[0][0] != '/' && !IsDir(s) && NoDoubleSlash(s)
    ensures var s, last := Join(cs), cs[|cs| - 1]; s[|s| - 1] == last[|last| - 1]
  {
    assert cs[0] != "" && Slashless(cs[0]);
    if |cs| > 1 {
      JoinShape(cs[1..]);
      GlueShape(cs[0], Join(cs[1..]));
    }
  }

  /** Joining undoes splitting on every string without empty components. */
  lemma {:induction false} JoinOfComponents(s: string)
    requires s != "" && s[0] != '/' && NoDoubleSlash(s)
    ensures Components(s) != []
    ensures s == Rebuild(s)
    decreases |s|
  {
    hide Components;
    var i := FirstSlash(s);
    if i == |s| {
      ComponentsOfSlashless(s);
    } else {
      var rest := s[i + 1..];
      assert s == s[..i] + "/" + rest;
      ComponentsConcat(s[..i], rest);
      ComponentsOfSlashless(s[..i]);
      if rest == "" {
        ComponentsOfSlashless(rest);
      } else {
        JoinOfComponents(rest);
        assert Components(s)[1..] == Components(rest);
      }
    }
  }

  // ---------------------------------------------------------------------
  // Normal forms.

  predicate Untrimmed(s: string) { s != "" && (IsSpace(s[0]) || IsSpace(s[|s| - 1])) }

  lemma {:induction false} TrimEndPrefix(s: string)
    ensures var t := TrimEnd(s); t <= s && (t != "" ==> !IsSpace(t[|t| - 1]))
    ensures s != "" && !IsSpace(s[0]) ==> TrimEnd(s) != ""
  {
    if s != "" && IsSpace(s[|s| - 1]) {
      TrimEndPrefix(s[..|s| - 1]);
    }
  }

  lemma {:induction false} TrimStartShorter(s: string)
    ensures var t := TrimStart(s); |t| <= |s| && (t != "" ==> !IsSpace(t[0]))
    ensures s != "" && IsSpace(s[0]) ==> |TrimStart(s)| < |s|
  {
    if s != "" && IsSpace(s[0]) {
      TrimStartShorter(s[1..]);
    }
  }

  lemma TrimExactly(s: string)
    ensures !Untrimmed(Trim(s))
    ensures Trim(s) == s <==> !Untrimmed(s)
    ensures Untrimmed(s) ==> |Trim(s)| < |s|
  {
    TrimStartShorter(s);
    TrimEndPrefix(TrimStart(s));
  }

  ghost predicate AllSpace(s: string) { forall i :: 0 <= i < |s| ==> IsSpace(s[i]) }

  ghost predicate AllSlash(s: string) { forall i :: 0 <= i < |s| ==> s[i] == '/' }

  /** Which characters count as whitespace, in part. */
  lemma SpaceSamples()
    ensures IsSpace(' ') && IsSpace('\t') && IsSpace('\n') && IsSpace('\r') && IsSpace('\U{00A0}') && IsSpace('\U{3000}')
    ensures forall c :: '!' <= c <= '~' ==> !IsSpace(c)
  {
  }

  lemma {:induction false} TrimStartSkips(a: string, x: string)
    requires AllSpace(a)
    ensures TrimStart(a + x) == TrimStart(x)
  {
    if a == "" {
      assert a + x == x;
    } else {
      assert (a + x)[1..] == a[1..] + x;
      TrimStartSkips(a[1..], x);
    }
  }

  lemma {:induction false} TrimEndSkips(x: string, b: string)
    requires AllSpace(b)
    ensures TrimEnd(x + b) == TrimEnd(x)
  {
    if b == "" {
      assert x + b == x;
    } else {
      assert (x + b)[..|x + b| - 1] == x + b[..|b| - 1];
      assert (x + b)[|x + b| - 1] == b[|b| - 1];
      TrimEndSkips(x, b[..|b| - 1]);
    }
  }

  /** Taking whitespace off both sides of a string gives back what was between:
      the trimmed form is the middle of every such cut. */
  lemma TrimIsTheMiddle(a: string, t: string, b: string)
    requires AllSpace(a) && AllSpace(b) && !Untrimmed(t)
    ensures Trim(a + t + b) == t
  {
    assert a + t + b == a + (t + b);
    TrimStartSkips(a, t + b);
    if t == "" {
      assert t + b == b && b + "" == b;
      TrimStartSkips(b, "");
    } else {
      assert (t + b)[0] == t[0];
      TrimEndSkips(t, b);
    }
  }

  lemma {:induction false} TrimStartCut(s: string) returns (a: string)
    ensures AllSpace(a) && s == a + TrimStart(s)
  {
    a := "";
    if s != "" && IsSpace(s[0]) {
      var rest := TrimStartCut(s[1..]);
      a := [s[0]] + rest;
      assert s == [s[0]] + s[1..];
    }
  }

  lemma {:induction false} TrimEndCut(s: string) returns (b: string)
    ensures AllSpace(b) && s == TrimEnd(s) + b
  {
    b := "";
    if s != "" && IsSpace(s[|s| - 1]) {
      var rest := TrimEndCut(s[..|s| - 1]);
      b := rest + [s[|s| - 1]];
      assert s == s[..|s| - 1] + [s[|s| - 1]];
    }
  }

  /** Every string is its trimmed form between two pieces of whitespace. */
  lemma TrimCuts(s: string) returns (a: string, b: string)
    ensures AllSpace(a) && AllSpace(b) && s == a + Trim(s) + b && !Untrimmed(Trim(s))
  {
    TrimExactly(s);
    a := TrimStartCut(s);
    b := TrimEndCut(TrimStart(s));
    Associate(a, Trim(s), b);
  }

  lemma {:induction false} StripIsTheRest(sl: string, p: string)
    requires AllSlash(sl) && (p == "" || p[0] != '/')
    ensures StripSlashes(sl + p) == p
  {
    if sl == "" {
      assert sl + p == p;
    } else {
      assert (sl + p)[1..] == sl[1..] + p;
      StripIsTheRest(sl[1..], p);
    }
  }

  lemma {:induction false} StripKeeps(s: string)
    ensures var p := StripSlashes(s);
      && |p| <= |s| && (p != "" ==> p[0] != '/' && p[|p| - 1] == s[|s| - 1])
      && Components(p) == Components(s)
      && (s != "" && s[0] != '/' ==> p == s)
      && (p == "" ==> s == "" || IsDir(s))
  {
    if s != "" && s[0] == '/' {
      StripKeeps(s[1..]);
      ComponentsConcat("", s[1..]);
      ComponentsOfSlashless("");
      assert s == "" + "/" + s[1..];
    }
  }

  lemma ComponentsGlue(top: string, last: string)
    requires last != "" && Slashless(last)
    ensures Components(top + "/" + last) == Components(top + "/") + [last]
  {
    ComponentsConcat(top, last);
    ComponentsOfDir(top);
    ComponentsOfSlashless(last);
  }

  lemma LastComponent(body: string)
    requires body != "" && !IsDir(body)
    ensures var n := PastLastSlash(body);
      Components(body) == (if n == 0 then [] else Components(body[..n])) + [body[n..]]
  {
    var n := PastLastSlash(body);
    if n == 0 {
      ComponentsOfSlashless(body);
      assert body[0..] == body;
    } else {
      var top, last := body[..n - 1], body[n..];
      assert body[..n] == top + "/";
      assert body == top + "/" + last;
      ComponentsGlue(top, last);
    }
  }

  lemma ComponentsHead(p: string)
    requires p != "" && p[0] != '/'
    ensures Components(p) != []
    ensures var c := Components(p)[0]; c != "" && c[0] == p[0]
  {
    var i := FirstSlash(p);
    var head := p[..i];
    ComponentsOfSlashless(head);
    if i < |p| {
      assert p == head + "/" + p[i + 1..];
      ComponentsConcat(head, p[i + 1..]);
    } else {
      assert head == p;
    }
  }

  lemma ComponentsLast(p: string)
    requires p != "" && !IsDir(p)
    ensures Components(p) != []
    ensures var cs := Components(p); var c := cs[|cs| - 1]; c != "" && c[|c| - 1] == p[|p| - 1]
  {
    LastComponent(p);
  }

  ghost predicate IsNormal(s: string) {
    s == "/" || (s != "" && s[0] != '/' && NoDoubleSlash(s))
  }

  lemma DirKeepsShape(s: string)
    requires s != "" && !IsDir(s) && NoDoubleSlash(s)
    ensures var d := s + "/"; d[0] == s[0] && IsDir(d) && NoDoubleSlash(d)
  {
  }

  lemma RebuildShape(p: string)
    requires p != "" && p[0] != '/'
    ensures var r := Rebuild(p);
      && r != "" && r[0] == p[0] && NoDoubleSlash(r) && r[|r| - 1] == p[|p| - 1]
      && Components(r) == Components(p)
  {
    var cs := Components(p);
    ComponentsHead(p);
    ComponentsProper(p);
    JoinShape(cs);
    ComponentsOfJoin(cs);
    if IsDir(p) {
      ComponentsOfDir(Join(cs));
      DirKeepsShape(Join(cs));
    } else {
      ComponentsLast(p);
      assert Join(cs) + "" == Join(cs);
    }
  }

  lemma NormalizePathOfTrimmed(path: string)
    ensures var r, t := NormalizePath(path), Trim(path);
      && IsNormal(r)
      && Components(r) == Components(t)
      && (IsDir(r) <==> t == "" || IsDir(t))
      && !IsSpace(r[|r| - 1])
      && r[0] == (if StripSlashes(t) == "" then '/' else StripSlashes(t)[0])
  {
    hide Components, Rebuild, StripSlashes, Trim;
    var t := Trim(path);
    var p := StripSlashes(t);
    TrimExactly(path);
    StripKeeps(t);
    if p == "" {
      ComponentsOfDir("");
      ComponentsOfSlashless("");
      assert "" + "/" == "/";
    } else {
      RebuildShape(p);
    }
  }

  /** What normalize_path gives, for every string: t is the string without its
      outer whitespace, and p is t without its leading slashes. */
  lemma NormalizePathShape(a: string, t: string, b: string, sl: string, p: string)
    requires AllSpace(a) && AllSpace(b) && !Untrimmed(t)
    requires t == sl + p && AllSlash(sl) && (p == "" || p[0] != '/')
    ensures var r := NormalizePath(a + t + b);
      && (r == "/" || (r != "" && r[0] != '/' && NoDoubleSlash(r)))
      && Components(r) == Components(t)
      && (IsDir(r) <==> t == "" || IsDir(t))
      && (r == "/" <==> p == "")
      && (p != "" ==> r[0] == p[0])
  {
    TrimIsTheMiddle(a, t, b);
    StripIsTheRest(sl, p);
    NormalizePathOfTrimmed(a + t + b);
  }

  /** Every string can be cut like that, in one way. */
  lemma PathCut(path: string) returns (a: string, t: string, b: string, sl: string, p: string)
    ensures AllSpace(a) && AllSpace(b) && !Untrimmed(t) && path == a + t + b
    ensures t == sl + p && AllSlash(sl) && (p == "" || p[0] != '/')
    ensures t == Trim(path) && p == StripSlashes(t)
  {
    a, b := TrimCuts(path);
    t := Trim(path);
    sl, p := "", t;
    while p != "" && p[0] == '/'
      invariant t == sl + p && AllSlash(sl)
      decreases |p|
    {
      sl, p := sl + [p[0]], p[1..];
    }
    StripIsTheRest(sl, p);
  }

  /** normalize_path leaves exactly the normal strings without outer
      whitespace as they are. */
  lemma NormalizePathFixedPoints(s: string)
    ensures NormalizePath(s) == s <==> IsNormal(s) && !Untrimmed(s)
  {
    TrimExactly(s);
    NormalizePathOfTrimmed(s);
    if IsNormal(s) && !Untrimmed(s) && s != "/" {
      StripKeeps(s);
      JoinOfComponents(s);
    }
    if NormalizePath(s) == s && Untrimmed(s) {
      NormalizePathShorter(s);
    }
  }

  lemma NormalizePathShorter(s: string)
    requires IsNormal(s) && Untrimmed(s) && !IsSpace(s[|s| - 1])
    ensures |NormalizePath(s)| < |s|
  {
    TrimExactly(s);
    TrimStartShorter(s);
    var t := Trim(s);
    StripKeeps(t);
    var p := StripSlashes(t);
    if p != "" {
      JoinNotLonger(p);
    }
  }

  lemma JoinCut(head: string, cs: seq<string>)
    ensures |Join([head] + cs)| == if cs == [] then |head| else |head| + 1 + |Join(cs)|
  {
    assert cs != [] ==> ([head] + cs)[1..] == cs;
  }

  lemma RebuildCut(p: string, head: string, tail: string)
    requires p == head + "/" + tail && head != "" && Slashless(head)
    ensures |Rebuild(p)| == if StripSlashes(tail) == "" then |head| + 1 else |head| + 1 + |Rebuild(StripSlashes(tail))|
  {
    hide Components, Join, StripSlashes;
    ComponentsConcat(head, tail);
    ComponentsOfSlashless(head);
    StripKeeps(tail);
    var rest := StripSlashes(tail);
    JoinCut(head, Components(rest));
    if rest == "" {
      ComponentsOfSlashless("");
      assert IsDir(p);
    } else {
      ComponentsHead(rest);
      assert IsDir(p) == IsDir(rest);
    }
  }

  lemma {:induction false} JoinNotLonger(p: string)
    requires p != "" && p[0] != '/'
    ensures |Rebuild(p)| <= |p|
    decreases |p|
  {
    var i := FirstSlash(p);
    var head := p[..i];
    if i == |p| {
      assert head == p;
      ComponentsOfSlashless(p);
    } else {
      var tail := p[i + 1..];
      assert p == head + "/" + tail;
      RebuildCut(p, head, tail);
      StripKeeps(tail);
      if StripSlashes(tail) != "" {
        JoinNotLonger(StripSlashes(tail));
      }
    }
  }

  /** normalize_path is idempotent at a path exactly if what is left of it without
      outer whitespace and without leading slashes does not begin with whitespace. */
  lemma NormalizePathIdempotentExactly(a: string, t: string, b: string, sl: string, p: string)
    requires AllSpace(a) && AllSpace(b) && !Untrimmed(t)
    requires t == sl + p && AllSlash(sl) && (p == "" || p[0] != '/')
    ensures var r := NormalizePath(a + t + b); NormalizePath(r) == r <==> p == "" || !IsSpace(p[0])
  {
    var path := a + t + b;
    TrimIsTheMiddle(a, t, b);
    StripIsTheRest(sl, p);
    NormalizePathOfTrimmed(path);
    NormalizePathFixedPoints(NormalizePath(path));
  }

  lemma NormalizePathIsNotIdempotent()
    ensures NormalizePath("/ abc") == " abc" && NormalizePath(" abc") == "abc"
  {
    var s := "/ abc";
    assert TrimStart(s) == s && TrimEnd(s) == s;
    assert StripSlashes(s) == s[1..] && StripSlashes(s[1..]) == s[1..] && s[1..] == " abc";
    ComponentsOfSlashless(" abc");
    assert TrimStart(" abc") == TrimStart(" abc"[1..]) && " abc"[1..] == "abc";
    assert TrimStart("abc") == "abc" && TrimEnd("abc") == "abc" && StripSlashes("abc") == "abc";
    ComponentsOfSlashless("abc");
  }

  /** What normalize_root gives, for every string. */
  lemma NormalizeRootShape(root: string)
    ensures var r := NormalizeRoot(root);
      && r[0] == '/' && IsDir(r) && NoDoubleSlash(r)
      && Components(r) == Components(root)
      && NormalizeRoot(r) == r
  {
    hide Components;
    ComponentsProper(root);
    var cs := Components(root);
    ComponentsOfJoin(cs);
    ComponentsOfSlashless("");
    if cs == [] {
      ComponentsOfDir("");
      assert "" + "/" == "/" && "/" + "" == "/";
    } else {
      JoinShape(cs);
      var v := Join(cs);
      ComponentsOfDir("/" + v);
      ComponentsConcat("", v);
      assert "" + "/" + v == "/" + v;
      var d := "/" + v + "/";
      assert NoDoubleSlash("/" + v);
      DirKeepsShape("/" + v);
    }
  }

  /** The number of characters that are not slashes. */
  function Letters(s: string): nat {
    if s == "" then 0 else Letters(s[..|s| - 1]) + if IsDir(s) then 0 else 1
  }

  function TotalLength(cs: seq<string>): nat {
    if cs == [] then 0 else |cs[0]| + TotalLength(cs[1..])
  }

  lemma {:induction false} LettersConcat(a: string, b: string)
    ensures Letters(a + b) == Letters(a) + Letters(b)
  {
    if b == "" {
      assert a + b == a;
    } else {
      LettersConcat(a, b[..|b| - 1]);
      assert (a + b)[..|a + b| - 1] == a + b[..|b| - 1];
    }
  }

  lemma {:induction false} LettersOfSlashless(s: string)
    requires Slashless(s)
    ensures Letters(s) == |s|
  {
    if s != "" {
      LettersOfSlashless(s[..|s| - 1]);
    }
  }

  /** The components keep every character but the slashes. */
  lemma {:induction false} LettersOfComponents(s: string)
    ensures Letters(s) == TotalLength(Components(s))
    decreases |s|
  {
    var i := FirstSlash(s);
    var head := s[..i];
    LettersOfSlashless(head);
    ComponentsOfSlashless(head);
    hide Components;
    if i == |s| {
      assert head == s;
    } else {
      var tail := s[i + 1..];
      assert s == head + "/" + tail;
      LettersConcat(head + "/", tail);
      LettersConcat(head, "/");
      assert Letters("/") == Letters("/"[..0]) == 0;
      LettersOfComponents(tail);
      ComponentsConcat(head, tail);
      assert head != "" ==> ([head] + Components(tail))[1..] == Components(tail);
    }
  }

  lemma {:induction false} TrimStartDropsLetters(s: string)
    ensures var t := TrimStart(s); Letters(t) <= Letters(s) && (t != s ==> Letters(t) < Letters(s))
  {
    if s != "" && IsSpace(s[0]) {
      TrimStartDropsLetters(s[1..]);
      LettersConcat(s[..1], s[1..]);
      assert s == s[..1] + s[1..];
      LettersOfSlashless(s[..1]);
    }
  }

  lemma {:induction false} TrimEndDropsLetters(s: string)
    ensures var t := TrimEnd(s); Letters(t) <= Letters(s) && (t != s ==> Letters(t) < Letters(s))
  {
    if s != "" && IsSpace(s[|s| - 1]) {
      TrimEndDropsLetters(s[..|s| - 1]);
    }
  }

  /** normalize_root trims a root, as its comment promises, exactly if there is
      nothing to trim: t is the root without its outer whitespace. */
  lemma NormalizeRootTrimsExactly(a: string, t: string, b: string)
    requires AllSpace(a) && AllSpace(b) && !Untrimmed(t)
    ensures NormalizeRoot(a + t + b) == NormalizeRoot(t) <==> !Untrimmed(a + t + b)
  {
    var root := a + t + b;
    TrimIsTheMiddle(a, t, b);
    TrimExactly(root);
    if Untrimmed(root) {
      TrimStartDropsLetters(root);
      TrimEndDropsLetters(TrimStart(root));
      assert Letters(Trim(root)) < Letters(root);
      LettersOfComponents(root);
      LettersOfComponents(Trim(root));
      NormalizeRootShape(root);
      NormalizeRootShape(Trim(root));
    }
  }

  lemma NormalizeRootDoesNotTrim()
    ensures NormalizeRoot(" a") == "/ a/" && NormalizeRoot("a") == "/a/"
  {
    ComponentsOfSlashless(" a");
    ComponentsOfSlashless("a");
  }

  // ---------------------------------------------------------------------
  // Absolute and relative paths.

  lemma NormalizeRootHead(root: string)
    ensures var r := NormalizeRoot(root); r == "/" || (|r| > 1 && r[1] != '/')
  {
    NormalizeRootShape(root);
    var r := NormalizeRoot(root);
    if |r| > 1 {
      assert !(r[0] == '/' && r[0 + 1] == '/');
    }
  }

  lemma RelPathUndoes(r: string, p: string)
    requires r != "" && r[0] == '/' && (r == "/" || r[1] != '/')
    requires p != "" && p[0] != '/'
    ensures var abs := BuildAbsPath(r, p); abs != "" && abs[0] != '/' && r[1..] <= abs && BuildRelPath(r, abs) == p
    ensures var abs := BuildRootedAbsPath(r, p); abs[0] == '/' && r <= abs && BuildRelPath(r, abs) == p
  {
    var tail := r[1..];
    assert (tail + p)[|tail|..] == p;
    assert (r + p)[|r|..] == p;
    assert tail != "" ==> (tail + p)[0] == tail[0] == r[1];
  }

  /** Making a path absolute and relative again gives the path back, for every
      root and path, except that the root itself comes back as "". */
  lemma RelPathUndoesAbsPath(root: string, path: string)
    ensures
      var r, p := NormalizeRoot(root), NormalizePath(path);
      && r != "" && r[1..] <= BuildAbsPath(r, p) && r <= BuildRootedAbsPath(r, p)
      && (BuildAbsPath(r, p) == "" || BuildAbsPath(r, p)[0] != '/') && BuildRootedAbsPath(r, p)[0] == '/'
      && BuildRelPath(r, BuildAbsPath(r, p)) == BuildRelPath(r, BuildRootedAbsPath(r, p)) == if p == "/" then "" else p
  {
    NormalizeRootHead(root);
    NormalizeRootShape(root);
    NormalizePathOfTrimmed(path);
    if NormalizePath(path) != "/" {
      RelPathUndoes(NormalizeRoot(root), NormalizePath(path));
    }
  }

  lemma ComponentsOfJoined(dir: string, p: string)
    requires IsDir(dir)
    ensures Components(dir + p) == Components(dir) + Components(p)
  {
    var x := dir[..|dir| - 1];
    assert dir == x + "/" && dir + p == x + "/" + p;
    ComponentsConcat(x, p);
    ComponentsOfDir(x);
  }

  lemma NoDoubleSlashJoined(dir: string, p: string)
    requires NoDoubleSlash(dir) && NoDoubleSlash(p) && (p == "" || p[0] != '/')
    ensures NoDoubleSlash(dir + p)
  {
    var s := dir + p;
    forall i | 0 <= i < |s| - 1
      ensures !(s[i] == '/' && s[i + 1] == '/')
    {
      if i >= |dir| {
        assert s[i] == p[i - |dir|] && s[i + 1] == p[i + 1 - |dir|];
      } else if i + 1 < |dir| {
        assert s[i] == dir[i] && s[i + 1] == dir[i + 1];
      } else {
        assert s[i + 1] == p[0];
      }
    }
  }

  /** The absolute path, rooted or not, has the root's components followed by the
      path's, has no empty ones, and is a directory exactly if the path is one. */
  lemma AbsPathComponents(root: string, path: string)
    ensures
      var r, p := NormalizeRoot(root), NormalizePath(path);
      var abs, rooted := BuildAbsPath(r, p), BuildRootedAbsPath(r, p);
      && Components(abs) == Components(rooted) == Components(root) + Components(p)
      && NoDoubleSlash(abs) && NoDoubleSlash(rooted)
      && (IsDir(rooted) <==> IsDir(p)) && (abs != "" ==> (IsDir(abs) <==> IsDir(p)))
  {
    NormalizeRootShape(root);
    NormalizePathOfTrimmed(path);
    var r, p := NormalizeRoot(root), NormalizePath(path);
    hide NormalizeRoot, NormalizePath, Components;
    var tail := r[1..];
    RootHasNoComponents();
    assert r == "/" + tail;
    LeadingSlashComponents(tail);
    assert NoDoubleSlash(tail) by {
      assert forall i :: 0 <= i < |tail| ==> tail[i] == r[i + 1];
    }
    if p == "/" {
      assert Components(root) + [] == Components(root);
    } else {
      ComponentsOfJoined(r, p);
      NoDoubleSlashJoined(r, p);
      NoDoubleSlashJoined(tail, p);
      if tail == "" {
        assert tail + p == p && Components(root) + Components(p) == Components(p);
      } else {
        ComponentsOfJoined(tail, p);
      }
    }
  }

  /** Under a fixed root, different normal paths get different absolute paths. */
  lemma AbsPathInjective(root: string, a: string, b: string)
    requires root != "" && IsNormal(a) && IsNormal(b)
    requires BuildAbsPath(root, a) == BuildAbsPath(root, b)
    ensures a == b
  {
    var r := root[1..];
    assert (r + a)[|r|..] == a && (r + b)[|r|..] == b;
  }

  // ---------------------------------------------------------------------
  // Parents and basenames.

  /** The basenames from the top down, as climbing with get_parent finds them. */
  function Chain(path: string): seq<string>
    decreases if path == "/" then 0 else |path|
  {
    if path == "/" || path == "" then [] else Chain(GetParent(path)) + [GetBasename(path)]
  }

  function DirNames(cs: seq<string>): seq<string> { seq(|cs|, i requires 0 <= i < |cs| => cs[i] + "/") }

  /** The components of a path as names: directories carry their slash. */
  function Names(path: string): seq<string> {
    var cs := Components(path);
    if IsDir(path) || cs == [] then DirNames(cs)
    else DirNames(cs[..|cs| - 1]) + [cs[|cs| - 1]]
  }

  /** Parent and basename are one cut of the path. */
  lemma CutAt(path: string) returns (n: nat)
    requires path != "" && path != "/"
    ensures n < |path| && GetBasename(path) == path[n..]
    ensures GetParent(path) == if n == 0 then "/" else path[..n]
    ensures n == 0 ==> path[0] != '/'
  {
    var body := if IsDir(path) then path[..|path| - 1] else path;
    n := PastLastSlash(body);
    hide PastLastSlash;
  }

  /** Parent followed by basename rebuilds a path; a relative path's missing
      parent is "/". */
  lemma ParentThenBasename(path: string)
    requires path != "" && path != "/"
    ensures
      var parent, name := GetParent(path), GetBasename(path);
      && name != ""
      && (path == parent + name || (parent == "/" && path == name && path[0] != '/'))
  {
    var n := CutAt(path);
    hide GetParent, GetBasename;
    assert path == path[..n] + path[n..];
  }

  lemma ParentOfFile(path: string)
    requires path != "" && !IsDir(path) && NoDoubleSlash(path)
    ensures IsDir(GetParent(path)) && NoDoubleSlash(GetParent(path))
    ensures Components(path) == Components(GetParent(path)) + [GetBasename(path)]
  {
    LastComponent(path);
    RootHasNoComponents();
    var n := PastLastSlash(path);
    hide Components, PastLastSlash;
    assert GetBasename(path) == path[n..] && GetParent(path) == if n == 0 then "/" else path[..n];
  }

  lemma RootHasNoComponents()
    ensures Components("") == [] && Components("/") == []
  {
    ComponentsOfSlashless("");
    ComponentsOfDir("");
    assert "" + "/" == "/";
  }

  /** A directory and the file of the same name have the same parent. */
  lemma ParentOfDir(body: string)
    requires body != "" && NoDoubleSlash(body + "/")
    ensures !IsDir(body) && NoDoubleSlash(body)
    ensures GetParent(body + "/") == GetParent(body)
    ensures GetBasename(body + "/") == GetBasename(body) + "/"
  {
    var path := body + "/";
    var k := |body| - 1;
    assert path[k] == body[k] && path[k + 1] == '/';
    assert path[..|path| - 1] == body;
    forall i | 0 <= i < |body| - 1
      ensures !(body[i] == '/' && body[i + 1] == '/')
    {
      assert body[i] == path[i] && body[i + 1] == path[i + 1];
    }
    var n := PastLastSlash(body);
    assert path[..n] == body[..n] && path[n..] == body[n..] + "/";
  }

  /** The basename without its slash is the last component. */
  lemma ParentComponents(path: string)
    requires path != "" && path != "/" && NoDoubleSlash(path)
    ensures IsDir(GetParent(path)) && NoDoubleSlash(GetParent(path))
    ensures exists last ::
      && GetBasename(path) == (if IsDir(path) then last + "/" else last)
      && Components(path) == Components(GetParent(path)) + [last]
  {
    if IsDir(path) {
      var body := path[..|path| - 1];
      assert path == body + "/";
      ParentOfDir(body);
      ParentOfFile(body);
      ComponentsOfDir(body);
      assert GetBasename(path) == GetBasename(body) + "/";
    } else {
      ParentOfFile(path);
    }
  }

  lemma NamesStep(path: string)
    requires path != "" && path != "/" && NoDoubleSlash(path)
    ensures Names(path) == Names(GetParent(path)) + [GetBasename(path)]
  {
    ParentComponents(path);
    var cs, up := Components(path), Components(GetParent(path));
    var last :| GetBasename(path) == (if IsDir(path) then last + "/" else last) && cs == up + [last];
    NamesAppend(up, last);
  }

  lemma NamesAppend(up: seq<string>, last: string)
    ensures DirNames(up + [last]) == DirNames(up) + [last + "/"]
    ensures (up + [last])[..|up|] == up
  {
  }

  /** Climbing with get_parent meets the components of the path, one per step. */
  lemma {:induction false} ChainIsNames(path: string)
    requires NoDoubleSlash(path)
    ensures Chain(path) == Names(path)
    ensures |Chain(path)| == |Components(path)|
    decreases if path == "/" then 0 else |path|
  {
    if path == "" || path == "/" {
      RootHasNoComponents();
    } else {
      NamesStep(path);
      ParentComponents(path);
      ChainIsNames(GetParent(path));
    }
  }

  lemma LeadingSlashComponents(p: string)
    ensures Components("/" + p) == Components(p)
  {
    ComponentsConcat("", p);
    ComponentsOfSlashless("");
    assert "" + "/" + p == "/" + p;
  }

  /** "/p" and "p" are the same chain of names. */
  lemma LeadingSlashSameChain(p: string)
    requires NoDoubleSlash(p) && (p == "" || p[0] != '/')
    ensures Chain("/" + p) == Chain(p)
  {
    var q := "/" + p;
    assert NoDoubleSlash(q);
    ChainIsNames(q);
    ChainIsNames(p);
    LeadingSlashComponents(p);
    if p == "" {
      ComponentsOfSlashless(p);
    } else {
      assert q[|q| - 1] == p[|p| - 1];
      assert Names(q) == Names(p);
    }
  }
}
