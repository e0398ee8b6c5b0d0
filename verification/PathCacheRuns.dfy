/**
 The path cacher under concurrency (core/src/raw/path_cache.rs): any number of
 callers, each in the middle of a `get`, an `insert` or an `ensure_dir`, take
 turns at every lookup, every insert and every call of the service. Entries are
 evicted at any time, files appear in the service at any time, service calls fail
 before or after their effect, and a caller may give up at any point. A creation
 whose caller failed or gave up while it was under way may still land later. The
 lock is optional, as in the source.
 */
module PathCacheRuns {
  import opened Common
  import opened Paths
  import opened PathCache

  type Tid = nat

  datatype Op = OpGet(path: string) | OpInsert(path: string, id: Id) | OpEnsure(path: string)

  /** Where a caller that holds (or does without) the lock stands. */
  datatype Pc =
    | GetAt(path: string, current: string, paths: seq<string>)       // look `current` up
    | GetRoot(path: string, current: string, paths: seq<string>)     // ask for the root
    | GetRootKeep(path: string, current: string, id: Id, paths: seq<string>)  // insert the root
    | GetDown(path: string, at: string, id: Id, paths: seq<string>)  // ask for paths[0], or finish
    | GetKeep(path: string, id: Id, paths: seq<string>)              // insert paths[0]
    | InsertAt(path: string, id: Id)
    | EnsureRoot(cs: seq<string>)                                    // look "/" up
    | EnsureRootAsk(cs: seq<string>)                                 // ask for the root
    | EnsureAt(cs: seq<string>, k: nat, parent: Id)                  // look directory k up, or finish
    | EnsureAsk(cs: seq<string>, k: nat, parent: Id)                 // ask for it
    | EnsureMake(cs: seq<string>, k: nat, parent: Id)                // create it
    | EnsureKeep(cs: seq<string>, k: nat, id: Id)                    // insert it

  datatype Thread = Idle | Waiting(op: Op) | Running(pc: Pc)

  /** An answer of get, and the service at that moment. */
  datatype Found = Found(path: string, answer: Option<Id>, tree: Tree)

  /** `initial` is the service at the start, `pending` are creations under way
      whose caller has left, `created` the pairs that came to be, `ensured` the ids
      handed out by ensure_dir, `found` the answers of get. */
  datatype System = System(
    locking: bool, holder: Option<Tid>, threads: map<Tid, Thread>,
    initial: Tree, tree: Tree, cache: map<string, Id>, pending: seq<(Id, string)>,
    created: seq<(Id, string)>, ensured: seq<(seq<string>, Id)>, found: seq<Found>)

  /** How the service call of this step goes. A creation may fail without
      effect, fail although it has had its effect, or be still under way. */
  datatype Answer = Fine(id: Id) | Fail | FailLate(id: Id) | FailSent

  datatype Action =
    | Start(t: Tid, op: Op)
    | Acquire(t: Tid)
    | Advance(t: Tid, answer: Answer)
    | GiveUp(t: Tid, sent: bool)
    | Land(k: nat, id: Id)
    | Vanish(k: nat)
    | Evict(keys: set<string>)
    | Appear(parent: Id, name: string, id: Id)

  function Init(locking: bool, tree: Tree): System {
    System(locking, None, map[], tree, tree, map[], [], [], [], [])
  }

  function ThreadOf(s: System, t: Tid): Thread { if t in s.threads then s.threads[t] else Idle }

  function Goto(s: System, t: Tid, pc: Pc): System { s.(threads := s.threads[t := Running(pc)]) }

  /** Return to the caller; the guard goes. */
  function Leave(s: System, t: Tid): System {
    s.(threads := s.threads[t := Idle], holder := if s.holder == Some(t) then None else s.holder)
  }

  /** Return to the caller with a creation still under way. */
  function LeaveSent(s: System, t: Tid, pair: (Id, string)): System { Leave(s.(pending := s.pending + [pair]), t) }

  function GiveUpNow(s: System, t: Tid, sent: bool): System {
    match ThreadOf(s, t)
    case Running(EnsureMake(cs, k, parent)) =>
      if sent && k < |cs| then LeaveSent(s, t, (parent, cs[k] + "/")) else Leave(s, t)
    case _ => Leave(s, t)
  }

  function Without<T>(xs: seq<T>, k: nat): seq<T>
    requires k < |xs|
  {
    xs[..k] + xs[k + 1..]
  }

  /** The service creates a pair, and the id of an earlier one is lost. */
  function Create(s: System, pair: (Id, string), id: Id): System {
    s.(tree := Gain(s.tree, pair.0, pair.1, id), created := s.created + [pair])
  }

  function Begin(op: Op): Pc {
    match op
    case OpGet(path) => GetAt(path, path, [])
    case OpInsert(path, id) => InsertAt(path, id)
    case OpEnsure(path) => EnsureRoot(Components(path))
  }

  function Key(cs: seq<string>, k: nat): string
    requires k < |cs|
  {
    DirKey(cs[..k + 1])
  }

  function StepGet(s: System, t: Tid, pc: Pc, a: Answer): System
    requires pc.GetAt? || pc.GetRoot? || pc.GetRootKeep? || pc.GetDown? || pc.GetKeep?
  {
    match pc
    case GetAt(path, current, paths) =>
      if current in s.cache then Goto(s, t, GetDown(path, current, s.cache[current], paths))
      else if current == "/" || current == "" then Goto(s, t, GetRoot(path, current, paths))
      else Goto(s, t, GetAt(path, GetParent(current), [current] + paths))
    case GetRoot(path, current, paths) =>
      if !a.Fine? then Leave(s, t)
      else Goto(s, t, GetRootKeep(path, current, s.tree.root, paths))
    case GetRootKeep(path, current, id, paths) =>
      Goto(s.(cache := s.cache["/" := id]), t, GetDown(path, current, id, paths))
    case GetDown(path, at, id, paths) =>
      if paths == [] then Leave(s.(found := s.found + [Found(path, Some(id), s.tree)]), t)
      else if !a.Fine? then Leave(s, t)
      else if (id, GetBasename(paths[0])) !in s.tree.kids then Leave(s.(found := s.found + [Found(path, None, s.tree)]), t)
      else Goto(s, t, GetKeep(path, s.tree.kids[(id, GetBasename(paths[0]))], paths))
    case GetKeep(path, id, paths) =>
      if paths == [] then Leave(s, t)
      else Goto(s.(cache := s.cache[paths[0] := id]), t, GetDown(path, paths[0], id, paths[1..]))
  }

  function StepEnsure(s: System, t: Tid, pc: Pc, a: Answer): System
    requires pc.EnsureRoot? || pc.EnsureRootAsk? || ((pc.EnsureAt? || pc.EnsureAsk? || pc.EnsureMake? || pc.EnsureKeep?) && pc.k <= |pc.cs|)
    requires pc.EnsureAsk? || pc.EnsureMake? || pc.EnsureKeep? ==> pc.k < |pc.cs|
  {
    match pc
    case EnsureRoot(cs) =>
      if "/" in s.cache then Goto(s, t, EnsureAt(cs, 0, s.cache["/"])) else Goto(s, t, EnsureRootAsk(cs))
    case EnsureRootAsk(cs) =>
      if a.Fine? then Goto(s, t, EnsureAt(cs, 0, s.tree.root)) else Leave(s, t)
    case EnsureAt(cs, k, parent) =>
      if k == |cs| then Leave(s.(ensured := s.ensured + [(cs, parent)]), t)
      else if Key(cs, k) in s.cache then Goto(s, t, EnsureAt(cs, k + 1, s.cache[Key(cs, k)]))
      else Goto(s, t, EnsureAsk(cs, k, parent))
    case EnsureAsk(cs, k, parent) =>
      if !a.Fine? then Leave(s, t)
      else if (parent, cs[k] + "/") in s.tree.kids then Goto(s, t, EnsureKeep(cs, k, s.tree.kids[(parent, cs[k] + "/")]))
      else Goto(s, t, EnsureMake(cs, k, parent))
    case EnsureMake(cs, k, parent) =>
      var pair := (parent, cs[k] + "/");
      match a {
        case Fine(id) => Goto(Create(s, pair, id), t, EnsureKeep(cs, k, id))
        case Fail => Leave(s, t)
        case FailLate(id) => Leave(Create(s, pair, id), t)
        case FailSent => LeaveSent(s, t, pair)
      }
    case EnsureKeep(cs, k, id) =>
      Goto(s.(cache := s.cache[Key(cs, k) := id]), t, EnsureAt(cs, k + 1, id))
  }

  /** The positions a caller can be in. */
  predicate WellPlaced(pc: Pc) {
    match pc
    case EnsureAt(cs, k, _) => k <= |cs|
    case EnsureAsk(cs, k, _) => k < |cs|
    case EnsureMake(cs, k, _) => k < |cs|
    case EnsureKeep(cs, k, _) => k < |cs|
    case _ => true
  }

  function StepInsert(s: System, t: Tid, path: string, id: Id): System {
    if path in s.cache then Leave(s, t)
    else Leave(s.(cache := s.cache[path := id]), t)
  }

  function Step(s: System, t: Tid, pc: Pc, a: Answer): System {
    match pc
    case InsertAt(path, id) => StepInsert(s, t, path, id)
    case EnsureRoot(_) => StepEnsure(s, t, pc, a)
    case EnsureRootAsk(_) => StepEnsure(s, t, pc, a)
    case EnsureAt(_, _, _) => if WellPlaced(pc) then StepEnsure(s, t, pc, a) else s
    case EnsureAsk(_, _, _) => if WellPlaced(pc) then StepEnsure(s, t, pc, a) else s
    case EnsureMake(_, _, _) => if WellPlaced(pc) then StepEnsure(s, t, pc, a) else s
    case EnsureKeep(_, _, _) => if WellPlaced(pc) then StepEnsure(s, t, pc, a) else s
    case _ => StepGet(s, t, pc, a)
  }

  /** An action that is not possible changes nothing. */
  function Apply(s: System, a: Action): System {
    match a
    case Start(t, op) => if ThreadOf(s, t).Idle? then s.(threads := s.threads[t := Waiting(op)]) else s
    case Acquire(t) =>
      if ThreadOf(s, t).Waiting? && s.holder == None
      then Goto(if s.locking then s.(holder := Some(t)) else s, t, Begin(ThreadOf(s, t).op))
      else s
    case Advance(t, answer) => if ThreadOf(s, t).Running? then Step(s, t, ThreadOf(s, t).pc, answer) else s
    case GiveUp(t, sent) => GiveUpNow(s, t, sent)
    case Land(k, id) => if k < |s.pending| then Create(s, s.pending[k], id).(pending := Without(s.pending, k)) else s
    case Vanish(k) => if k < |s.pending| then s.(pending := Without(s.pending, k)) else s
    case Evict(keys) => s.(cache := s.cache - keys)
    case Appear(parent, name, id) =>
      // a file that someone uploads
      if (parent, name) in s.tree.kids || IsDir(name) then s else s.(tree := Gain(s.tree, parent, name, id))
  }

  function Run(s: System, actions: seq<Action>): System {
    if actions == [] then s else Apply(Run(s, actions[..|actions| - 1]), actions[|actions| - 1])
  }

  // ---------------------------------------------------------------------
  // With the lock.

  /** What the caller inside knows about the service. */
  ghost predicate Knows(t: Tree, pc: Pc) {
    match pc
    case GetAt(path, current, paths) => Leads(current, paths, path)
    case GetRoot(path, current, paths) => Leads(current, paths, path) && current in {"", "/"}
    case GetRootKeep(path, current, id, paths) => Leads(current, paths, path) && current in {"", "/"} && id == t.root
    case GetDown(path, at, id, paths) => Leads(at, paths, path) && Resolve(t, at) == Some(id)
    case GetKeep(path, id, paths) =>
      paths != [] && Leads(paths[0], paths[1..], path) && Resolve(t, paths[0]) == Some(id)
    case InsertAt(path, id) => Resolve(t, path) == Some(id)
    case EnsureRoot(cs) => Proper(cs)
    case EnsureRootAsk(cs) => Proper(cs)
    case EnsureAt(cs, k, parent) => Proper(cs) && k <= |cs| && DirId(t, cs[..k]) == Some(parent)
    case EnsureAsk(cs, k, parent) => Proper(cs) && k < |cs| && DirId(t, cs[..k]) == Some(parent)
    case EnsureMake(cs, k, parent) =>
      Proper(cs) && k < |cs| && DirId(t, cs[..k]) == Some(parent) && (parent, cs[k] + "/") !in t.kids
    case EnsureKeep(cs, k, id) => Proper(cs) && k < |cs| && DirId(t, cs[..k + 1]) == Some(id)
  }

  /** A caller that inserts an id knows that the path has it. */
  ghost predicate Informed(t: Tree, op: Op) { op.OpInsert? ==> Resolve(t, op.path) == Some(op.id) }

  /** All ids that ensure_dir handed out are still right, and get's answers were
      right when it gave them. */
  ghost predicate Honoured(t: Tree, ensured: seq<(seq<string>, Id)>, found: seq<Found>) {
    && (forall k :: 0 <= k < |ensured| ==> DirId(t, ensured[k].0) == Some(ensured[k].1))
    && (forall k :: 0 <= k < |found| ==> Resolve(found[k].tree, found[k].path) == found[k].answer && Extends(found[k].tree, t))
  }

  /** The shared part of the state is right. */
  ghost predicate Consistent(s: System) {
    && Sound(s.tree, s.cache)
    && Extends(s.initial, s.tree)
    && Distinct(s.created) && (forall p <- s.created :: p in s.tree.kids && p !in s.initial.kids)
    && Honoured(s.tree, s.ensured, s.found)
  }

  /** Only the holder is inside, and what it and those waiting know is so. */
  ghost predicate Exclusive(s: System) {
    && s.locking
    && (forall t <- s.threads :: s.threads[t].Running? ==> s.holder == Some(t) && Knows(s.tree, s.threads[t].pc))
    && (forall t <- s.threads :: s.threads[t].Waiting? ==> Informed(s.tree, s.threads[t].op))
  }

  /** Nobody is inside while a creation without a caller is under way, there is
      one at most, and its pair is still absent. */
  ghost predicate Alone(s: System) {
    && (s.holder.Some? ==> s.pending == [])
    && |s.pending| <= 1
    && (forall p <- s.pending :: p !in s.tree.kids && IsDir(p.1))
  }

  ghost predicate Inv(s: System) { Consistent(s) && Exclusive(s) && Alone(s) }

  lemma StoreKeepsSound(t: Tree, cache: map<string, Id>, key: string, id: Id)
    requires Sound(t, cache) && Resolve(t, key) == Some(id)
    ensures Sound(t, cache[key := id])
  {
  }

  lemma RootResolves(t: Tree, path: string)
    requires path == "" || path == "/"
    ensures Resolve(t, path) == Some(t.root)
  {
  }

  lemma GotoKeepsInv(s: System, t: Tid, pc: Pc)
    requires Inv(s) && s.holder == Some(t) && Knows(s.tree, pc)
    ensures Inv(Goto(s, t, pc))
  {
  }

  lemma LeaveKeepsInv(s: System, t: Tid)
    requires Inv(s)
    ensures Inv(Leave(s, t))
  {
  }

  /** A caller inside has the shared state to itself: changing it consistently
      only has to respect what this caller goes on with. */
  lemma MoveOn(s: System, s1: System, t: Tid, pc: Pc)
    requires Inv(s) && s.holder == Some(t)
    requires s1.locking && s1.holder == s.holder && s1.threads == s.threads && Consistent(s1) && Knows(s1.tree, pc)
    requires Extends(s.tree, s1.tree) && s1.pending == s.pending
    ensures Inv(Goto(s1, t, pc)) && Inv(Leave(s1, t))
  {
    StillInformed(s.tree, s1.tree);
    hide Knows, Informed, Consistent;
  }

  /** Leaving a creation of an absent directory under way. */
  lemma LeaveSentKeepsInv(s: System, t: Tid, pair: (Id, string))
    requires Inv(s) && s.holder == Some(t) && pair !in s.tree.kids && IsDir(pair.1)
    ensures Inv(LeaveSent(s, t, pair))
  {
    hide Knows, Informed, Sound, Honoured, Distinct, Extends;
  }

  lemma StillInformed(t: Tree, t': Tree)
    requires Extends(t, t')
    ensures forall op: Op :: Informed(t, op) ==> Informed(t', op)
  {
    forall op: Op | Informed(t, op)
      ensures Informed(t', op)
    {
      WalkMonotone(t, t', t.root, Chain(op.path));
    }
  }

  /** What the caller inside knows stays so when a file appears. */
  lemma KnowsStill(t: Tree, parent: Id, name: string, id: Id, pc: Pc)
    requires Knows(t, pc) && (parent, name) !in t.kids && !IsDir(name)
    ensures Knows(Gain(t, parent, name, id), pc)
  {
    var t' := Gain(t, parent, name, id);
    GainExtends(t, t', parent, name);
    match pc
    case GetDown(_, at, _, _) => WalkMonotone(t, t', t.root, Chain(at));
    case GetKeep(_, _, paths) => WalkMonotone(t, t', t.root, Chain(paths[0]));
    case InsertAt(path, _) => WalkMonotone(t, t', t.root, Chain(path));
    case EnsureAt(cs, k, _) => WalkMonotone(t, t', t.root, DirNames(cs[..k]));
    case EnsureAsk(cs, k, _) => WalkMonotone(t, t', t.root, DirNames(cs[..k]));
    case EnsureMake(cs, k, _) => WalkMonotone(t, t', t.root, DirNames(cs[..k]));
    case EnsureKeep(cs, k, _) => WalkMonotone(t, t', t.root, DirNames(cs[..k + 1]));
    case _ =>
  }

  lemma Inside(s: System, t: Tid, pc: Pc)
    requires Inv(s) && ThreadOf(s, t) == Running(pc)
    ensures s.holder == Some(t) && Knows(s.tree, pc)
  {
    hide Knows, Honoured, Informed;
  }

  lemma Cached(s: System, key: string)
    requires Inv(s) && key in s.cache
    ensures Resolve(s.tree, key) == Some(s.cache[key])
  {
  }

  /** The caller inside puts the right id into the cache. */
  lemma StoreKeepsInv(s: System, t: Tid, key: string, id: Id, pc: Pc)
    requires Inv(s) && s.holder == Some(t) && Resolve(s.tree, key) == Some(id) && Knows(s.tree, pc)
    ensures var s1 := s.(cache := s.cache[key := id]); Inv(Goto(s1, t, pc)) && Inv(Leave(s1, t))
  {
    hide Knows, Honoured, Informed, Resolve;
    StoreKeepsSound(s.tree, s.cache, key, id);
    MoveOn(s, s.(cache := s.cache[key := id]), t, pc);
  }

  /** get answers what resolution gives. */
  lemma AnswerKeepsInv(s: System, t: Tid, path: string, pc: Pc)
    requires Inv(s) && s.holder == Some(t) && Knows(s.tree, pc)
    ensures Inv(Leave(s.(found := s.found + [Found(path, Resolve(s.tree, path), s.tree)]), t))
  {
    hide Knows, Informed, Resolve, Sound;
    MoveOn(s, s.(found := s.found + [Found(path, Resolve(s.tree, path), s.tree)]), t, pc);
  }

  /** ensure_dir answers what resolution gives. */
  lemma EnsuredKeepsInv(s: System, t: Tid, cs: seq<string>, id: Id, pc: Pc)
    requires Inv(s) && s.holder == Some(t) && DirId(s.tree, cs) == Some(id) && Knows(s.tree, pc)
    ensures Inv(Leave(s.(ensured := s.ensured + [(cs, id)]), t))
  {
    hide Knows, Informed, Resolve, Sound, DirId;
    MoveOn(s, s.(ensured := s.ensured + [(cs, id)]), t, pc);
  }

  lemma StepGetKeepsInv(s: System, t: Tid, pc: Pc, a: Answer)
    requires Inv(s) && ThreadOf(s, t) == Running(pc)
    requires pc.GetAt? || pc.GetRoot? || pc.GetRootKeep? || pc.GetDown? || pc.GetKeep?
    ensures Inv(StepGet(s, t, pc, a))
  {
    LeaveKeepsInv(s, t);
    Inside(s, t, pc);
    hide Inv, Resolve, Chain, GetParent, GetBasename, Goto, Leave;
    match pc
    case GetAt(path, current, paths) =>
      if current in s.cache {
        Cached(s, current);
        GotoKeepsInv(s, t, GetDown(path, current, s.cache[current], paths));
      } else if current == "/" || current == "" {
        GotoKeepsInv(s, t, GetRoot(path, current, paths));
      } else {
        LeadsUp(current, paths, path);
        GotoKeepsInv(s, t, GetAt(path, GetParent(current), [current] + paths));
      }
    case GetRoot(path, current, paths) =>
      GotoKeepsInv(s, t, GetRootKeep(path, current, s.tree.root, paths));
    case GetRootKeep(path, current, id, paths) =>
      RootResolves(s.tree, "/");
      RootResolves(s.tree, current);
      StoreKeepsInv(s, t, "/", id, GetDown(path, current, id, paths));
    case GetDown(path, at, id, paths) =>
      if paths == [] {
        AnswerKeepsInv(s, t, path, pc);
      } else {
        ResolveStep(s.tree, paths[0]);
        if (id, GetBasename(paths[0])) !in s.tree.kids {
          MissingAbove(s.tree, paths[0], paths[1..], path);
          AnswerKeepsInv(s, t, path, pc);
        } else {
          GotoKeepsInv(s, t, GetKeep(path, s.tree.kids[(id, GetBasename(paths[0]))], paths));
        }
      }
    case GetKeep(path, id, paths) =>
      StoreKeepsInv(s, t, paths[0], id, GetDown(path, paths[0], id, paths[1..]));
  }

  lemma HonouredMonotone(t: Tree, t': Tree, ensured: seq<(seq<string>, Id)>, found: seq<Found>)
    requires Honoured(t, ensured, found) && Extends(t, t')
    ensures Honoured(t', ensured, found)
  {
    forall k | 0 <= k < |ensured|
      ensures DirId(t', ensured[k].0) == Some(ensured[k].1)
    {
      WalkMonotone(t, t', t.root, DirNames(ensured[k].0));
    }
    forall k | 0 <= k < |found|
      ensures Extends(found[k].tree, t')
    {
      ExtendsTransitive(found[k].tree, t, t');
    }
  }

  /** Gaining an absent pair leaves everything handed out and cached right. */
  lemma MakeKeepsConsistent(s: System, parent: Id, name: string, id: Id)
    requires Consistent(s) && (parent, name) !in s.tree.kids
    ensures Extends(s.tree, Gain(s.tree, parent, name, id))
    ensures Consistent(s.(tree := Gain(s.tree, parent, name, id)))
    ensures Consistent(Create(s, (parent, name), id))
  {
    hide Resolve, DirId;
    var t' := Gain(s.tree, parent, name, id);
    GainExtends(s.tree, t', parent, name);
    SoundMonotone(s.tree, t', s.cache);
    HonouredMonotone(s.tree, t', s.ensured, s.found);
    ExtendsTransitive(s.initial, s.tree, t');
    forall i, j | 0 <= i < j < |s.created| + 1
      ensures (s.created + [(parent, name)])[i] != (s.created + [(parent, name)])[j]
    {
      assert s.created[i] in s.created;
    }
  }

  lemma EnsureMakeKeepsInv(s: System, t: Tid, pc: Pc, a: Answer)
    requires Inv(s) && ThreadOf(s, t) == Running(pc) && pc.EnsureMake?
    ensures WellPlaced(pc) && Inv(StepEnsure(s, t, pc, a))
  {
    hide Resolve, DirId, DirKey;
    LeaveKeepsInv(s, t);
    assert s.holder == Some(t) && Knows(s.tree, pc);
    var EnsureMake(cs, k, parent) := pc;
    var pair := (parent, cs[k] + "/");
    LeaveSentKeepsInv(s, t, pair);
    if a.Fine? || a.FailLate? {
      MakeKeepsConsistent(s, parent, cs[k] + "/", a.id);
      CreatedId(s.tree, cs, k, parent, a.id);
      MoveOn(s, Create(s, pair, a.id), t, EnsureKeep(cs, k, a.id));
    }
  }

  lemma EnsureRootKeepsInv(s: System, t: Tid, pc: Pc, a: Answer)
    requires Inv(s) && ThreadOf(s, t) == Running(pc) && (pc.EnsureRoot? || pc.EnsureRootAsk?)
    ensures WellPlaced(pc) && Inv(StepEnsure(s, t, pc, a))
  {
    LeaveKeepsInv(s, t);
    Inside(s, t, pc);
    hide Inv, Resolve, DirId, DirKey;
    var cs := pc.cs;
    RootIds(s.tree, cs);
    if pc.EnsureRoot? && "/" in s.cache {
      Cached(s, "/");
    }
    if pc.EnsureRootAsk? || "/" in s.cache {
      GotoKeepsInv(s, t, EnsureAt(cs, 0, s.tree.root));
    } else {
      GotoKeepsInv(s, t, EnsureRootAsk(cs));
    }
  }

  lemma EnsureAtKeepsInv(s: System, t: Tid, pc: Pc, a: Answer)
    requires Inv(s) && ThreadOf(s, t) == Running(pc) && pc.EnsureAt?
    ensures WellPlaced(pc) && Inv(StepEnsure(s, t, pc, a))
  {
    LeaveKeepsInv(s, t);
    Inside(s, t, pc);
    hide Inv, Resolve, DirId, DirKey;
    var EnsureAt(cs, k, parent) := pc;
    if k == |cs| {
      assert cs[..k] == cs;
      EnsuredKeepsInv(s, t, cs, parent, pc);
    } else if Key(cs, k) in s.cache {
      Cached(s, Key(cs, k));
      KeyResolves(s.tree, cs, k);
      GotoKeepsInv(s, t, EnsureAt(cs, k + 1, s.cache[Key(cs, k)]));
    } else {
      GotoKeepsInv(s, t, EnsureAsk(cs, k, parent));
    }
  }

  lemma EnsureAskKeepsInv(s: System, t: Tid, pc: Pc, a: Answer)
    requires Inv(s) && ThreadOf(s, t) == Running(pc) && pc.EnsureAsk?
    ensures WellPlaced(pc) && Inv(StepEnsure(s, t, pc, a))
  {
    LeaveKeepsInv(s, t);
    Inside(s, t, pc);
    hide Inv, Resolve, DirId, DirKey;
    var EnsureAsk(cs, k, parent) := pc;
    if (parent, cs[k] + "/") in s.tree.kids {
      DirIdStep(s.tree, cs, k);
      GotoKeepsInv(s, t, EnsureKeep(cs, k, s.tree.kids[(parent, cs[k] + "/")]));
    } else {
      GotoKeepsInv(s, t, EnsureMake(cs, k, parent));
    }
  }

  lemma KeyResolves(t: Tree, cs: seq<string>, k: nat)
    requires Proper(cs) && k < |cs|
    ensures Resolve(t, Key(cs, k)) == DirId(t, cs[..k + 1])
  {
    ProperPrefix(cs, k + 1);
    hide Resolve, DirId, DirKey, Proper;
    DirIdKey(t, cs[..k + 1]);
  }

  lemma EnsureKeepKeepsInv(s: System, t: Tid, pc: Pc, a: Answer)
    requires Inv(s) && ThreadOf(s, t) == Running(pc) && pc.EnsureKeep?
    ensures WellPlaced(pc) && Inv(StepEnsure(s, t, pc, a))
  {
    hide Inv, Resolve, DirId, Key, Goto, Leave, Proper, Leads, ThreadOf;
    Inside(s, t, pc);
    KeyResolves(s.tree, pc.cs, pc.k);
    StoreKeepsInv(s, t, Key(pc.cs, pc.k), pc.id, EnsureAt(pc.cs, pc.k + 1, pc.id));
  }

  lemma StepEnsureKeepsInv(s: System, t: Tid, pc: Pc, a: Answer)
    requires Inv(s) && ThreadOf(s, t) == Running(pc)
    requires pc.EnsureRoot? || pc.EnsureRootAsk? || pc.EnsureAt? || pc.EnsureAsk? || pc.EnsureMake? || pc.EnsureKeep?
    ensures WellPlaced(pc) && Inv(StepEnsure(s, t, pc, a))
  {
    hide Inv, StepEnsure, ThreadOf;
    match pc
    case EnsureRoot(_) => EnsureRootKeepsInv(s, t, pc, a);
    case EnsureRootAsk(_) => EnsureRootKeepsInv(s, t, pc, a);
    case EnsureAt(_, _, _) => EnsureAtKeepsInv(s, t, pc, a);
    case EnsureAsk(_, _, _) => EnsureAskKeepsInv(s, t, pc, a);
    case EnsureMake(_, _, _) => EnsureMakeKeepsInv(s, t, pc, a);
    case EnsureKeep(_, _, _) => EnsureKeepKeepsInv(s, t, pc, a);
  }

  lemma StepInsertKeepsInv(s: System, t: Tid, path: string, id: Id)
    requires Inv(s) && ThreadOf(s, t) == Running(InsertAt(path, id))
    ensures Inv(StepInsert(s, t, path, id))
  {
    LeaveKeepsInv(s, t);
    Inside(s, t, InsertAt(path, id));
    StoreKeepsInv(s, t, path, id, InsertAt(path, id));
  }

  lemma AppearKeepsInv(s: System, parent: Id, name: string, id: Id)
    requires Inv(s) && (parent, name) !in s.tree.kids && !IsDir(name)
    ensures Inv(s.(tree := Gain(s.tree, parent, name, id)))
  {
    var t' := Gain(s.tree, parent, name, id);
    MakeKeepsConsistent(s, parent, name, id);
    StillInformed(s.tree, t');
    hide Knows, Informed, Consistent;
    forall t <- s.threads | s.threads[t].Running?
      ensures Knows(t', s.threads[t].pc)
    {
      KnowsStill(s.tree, parent, name, id, s.threads[t].pc);
    }
  }

  lemma GiveUpKeepsInv(s: System, t: Tid, sent: bool)
    requires Inv(s)
    ensures Inv(GiveUpNow(s, t, sent))
  {
    LeaveKeepsInv(s, t);
    match ThreadOf(s, t)
    case Running(EnsureMake(cs, k, parent)) =>
      assert s.holder == Some(t) && Knows(s.tree, EnsureMake(cs, k, parent));
      LeaveSentKeepsInv(s, t, (parent, cs[k] + "/"));
    case _ =>
  }

  /** A left-over creation lands or comes to nothing: nobody is inside. */
  lemma LandKeepsInv(s: System, k: nat, id: Id)
    requires Inv(s) && k < |s.pending|
    ensures Inv(Create(s, s.pending[k], id).(pending := Without(s.pending, k)))
    ensures Inv(s.(pending := Without(s.pending, k)))
  {
    var pair := s.pending[k];
    assert pair in s.pending && s.pending == [pair] && Without(s.pending, k) == [];
    assert s.holder == None;
    var s1 := Create(s, pair, id);
    MakeKeepsConsistent(s, pair.0, pair.1, id);
    StillInformed(s.tree, s1.tree);
    hide Knows, Informed, Sound, Honoured, Distinct, Extends;
  }

  /** A creation whose caller has left has landed or come to nothing by the time
      the next caller gets in. */
  ghost predicate Prompt(s: System, a: Action) {
    a.Acquire? && ThreadOf(s, a.t).Waiting? && s.holder == None ==> s.pending == []
  }

  lemma StartKeepsInv(s: System, t: Tid, op: Op)
    requires Inv(s) && Informed(s.tree, op)
    ensures ThreadOf(s, t).Idle? ==> Inv(s.(threads := s.threads[t := Waiting(op)]))
  {
    hide Knows, Informed, Sound, Honoured, Extends, Distinct;
  }

  lemma AcquireKeepsInv(s: System, t: Tid)
    requires Inv(s) && s.pending == [] && s.holder == None && ThreadOf(s, t).Waiting?
    ensures Inv(Goto(s.(holder := Some(t)), t, Begin(ThreadOf(s, t).op)))
  {
    var op := ThreadOf(s, t).op;
    if op.OpEnsure? {
      ComponentsProper(op.path);
    }
    assert Informed(s.tree, op) && Knows(s.tree, Begin(op));
    hide Knows, Informed, Consistent, Begin;
    GotoKeepsInv(s.(holder := Some(t)), t, Begin(op));
  }

  lemma EvictKeepsInv(s: System, keys: set<string>)
    requires Inv(s)
    ensures Inv(s.(cache := s.cache - keys))
  {
    hide Knows, Informed, Honoured, Extends, Distinct, Resolve;
  }

  lemma StepGetKeepsRest(s: System, t: Tid, pc: Pc, a: Answer)
    requires pc.GetAt? || pc.GetRoot? || pc.GetRootKeep? || pc.GetDown? || pc.GetKeep?
    ensures StepGet(s, t, pc, a).initial == s.initial && StepGet(s, t, pc, a).pending == s.pending
  {
    hide GetParent, GetBasename;
  }

  lemma StepEnsureKeepsRest(s: System, t: Tid, pc: Pc, a: Answer)
    requires WellPlaced(pc)
    requires pc.EnsureRoot? || pc.EnsureRootAsk? || pc.EnsureAt? || pc.EnsureAsk? || pc.EnsureMake? || pc.EnsureKeep?
    ensures StepEnsure(s, t, pc, a).initial == s.initial
    ensures !a.FailSent? ==> StepEnsure(s, t, pc, a).pending == s.pending
  {
    hide Key, Gain;
  }

  /** What the steps of callers leave alone. */
  lemma StepKeepsRest(s: System, t: Tid, pc: Pc, a: Answer)
    ensures Step(s, t, pc, a).initial == s.initial
    ensures !a.FailSent? ==> Step(s, t, pc, a).pending == s.pending
  {
    hide StepGet, StepEnsure;
    if pc.GetAt? || pc.GetRoot? || pc.GetRootKeep? || pc.GetDown? || pc.GetKeep? {
      StepGetKeepsRest(s, t, pc, a);
    } else if !pc.InsertAt? && WellPlaced(pc) {
      StepEnsureKeepsRest(s, t, pc, a);
    }
  }

  lemma ApplyKeepsInitial(s: System, a: Action)
    ensures Apply(s, a).initial == s.initial
  {
    hide Begin, Gain, Step;
    if a.Advance? && ThreadOf(s, a.t).Running? {
      StepKeepsRest(s, a.t, ThreadOf(s, a.t).pc, a.answer);
    }
  }

  lemma ApplyKeepsInv(s: System, a: Action)
    requires Inv(s) && (a.Start? ==> Informed(s.tree, a.op)) && Prompt(s, a)
    ensures Inv(Apply(s, a))
  {
    hide Consistent, Knows, Informed, Alone, Begin, StepGet, StepEnsure, StepInsert, GiveUpNow, Create, Leave, Gain;
    match a
    case Start(t, op) => StartKeepsInv(s, t, op);
    case Acquire(t) =>
      if ThreadOf(s, t).Waiting? && s.holder == None {
        AcquireKeepsInv(s, t);
      }
    case Advance(t, answer) =>
      if ThreadOf(s, t).Running? {
        var pc := ThreadOf(s, t).pc;
        if pc.InsertAt? {
          StepInsertKeepsInv(s, t, pc.path, pc.id);
        } else if pc.GetAt? || pc.GetRoot? || pc.GetRootKeep? || pc.GetDown? || pc.GetKeep? {
          StepGetKeepsInv(s, t, pc, answer);
        } else {
          StepEnsureKeepsInv(s, t, pc, answer);
        }
      }
    case GiveUp(t, sent) => GiveUpKeepsInv(s, t, sent);
    case Land(k, id) => if k < |s.pending| { LandKeepsInv(s, k, id); }
    case Vanish(k) => if k < |s.pending| { LandKeepsInv(s, k, ""); }
    case Evict(keys) => EvictKeepsInv(s, keys);
    case Appear(parent, name, id) =>
      if (parent, name) !in s.tree.kids && !IsDir(name) {
        AppearKeepsInv(s, parent, name, id);
      }
  }

  /** In this run every caller of insert knows the id when it calls. */
  ghost predicate InformedRun(s: System, actions: seq<Action>) {
    actions != [] ==>
      var before, last := actions[..|actions| - 1], actions[|actions| - 1];
      InformedRun(s, before) && (last.Start? ==> Informed(Run(s, before).tree, last.op))
  }

  /** In this run every creation without a caller has landed or come to nothing
      by the time the next caller gets in. */
  ghost predicate PromptRun(s: System, actions: seq<Action>) {
    actions != [] ==>
      var before, last := actions[..|actions| - 1], actions[|actions| - 1];
      PromptRun(s, before) && Prompt(Run(s, before), last)
  }

  lemma {:induction false} LockedRunsKeepInv(tree: Tree, actions: seq<Action>)
    requires InformedRun(Init(true, tree), actions) && PromptRun(Init(true, tree), actions)
    ensures Inv(Run(Init(true, tree), actions)) && Run(Init(true, tree), actions).initial == tree
  {
    if actions != [] {
      LockedRunsKeepInv(tree, actions[..|actions| - 1]);
      hide Apply, Inv, Informed, Prompt;
      ApplyKeepsInv(Run(Init(true, tree), actions[..|actions| - 1]), actions[|actions| - 1]);
      ApplyKeepsInitial(Run(Init(true, tree), actions[..|actions| - 1]), actions[|actions| - 1]);
    }
  }

  /** With the lock, over every interleaving: the service only grew, no pair is
      created twice and none that was there, callers that ensured the same
      directory got the same id, every answer of get was what resolution gave at
      that moment, ids it found are right ever after, and the cache is right. */
  lemma LockedRunsAreRight(tree: Tree, actions: seq<Action>)
    requires InformedRun(Init(true, tree), actions) && PromptRun(Init(true, tree), actions)
    ensures
      var s := Run(Init(true, tree), actions);
      && Sound(s.tree, s.cache)
      && Extends(tree, s.tree)
      && Distinct(s.created) && (forall p <- s.created :: p !in tree.kids)
      && (forall i, j :: 0 <= i < |s.ensured| && 0 <= j < |s.ensured| && s.ensured[i].0 == s.ensured[j].0 ==>
            s.ensured[i].1 == s.ensured[j].1)
      && (forall k :: 0 <= k < |s.ensured| ==> DirId(s.tree, s.ensured[k].0) == Some(s.ensured[k].1))
      && (forall k :: 0 <= k < |s.found| ==>
            && Resolve(s.found[k].tree, s.found[k].path) == s.found[k].answer
            && (s.found[k].answer.Some? ==> Resolve(s.tree, s.found[k].path) == s.found[k].answer))
  {
    LockedRunsKeepInv(tree, actions);
    var s := Run(Init(true, tree), actions);
    hide Run;
    forall k | 0 <= k < |s.found|
      ensures s.found[k].answer.Some? ==> Resolve(s.tree, s.found[k].path) == s.found[k].answer
    {
      WalkMonotone(s.found[k].tree, s.tree, s.tree.root, Chain(s.found[k].path));
    }
  }

  // ---------------------------------------------------------------------
  // Calls come to their end.

  predicate IsGet(pc: Pc) { pc.GetAt? || pc.GetRoot? || pc.GetRootKeep? || pc.GetDown? || pc.GetKeep? }

  predicate IsEnsure(pc: Pc) {
    pc.EnsureRoot? || pc.EnsureRootAsk? || pc.EnsureAt? || pc.EnsureAsk? || pc.EnsureMake? || pc.EnsureKeep?
  }

  /** A bound for the steps a call still takes. */
  function StepsLeft(pc: Pc): int {
    match pc
    case GetAt(_, current, paths) => 3 * |Chain(current)| + 2 * |paths| + 4
    case GetRoot(_, _, paths) => 2 * |paths| + 3
    case GetRootKeep(_, _, _, paths) => 2 * |paths| + 2
    case GetDown(_, _, _, paths) => 2 * |paths| + 1
    case GetKeep(_, _, paths) => 2 * |paths|
    case InsertAt(_, _) => 0
    case EnsureRoot(cs) => 4 * |cs| + 3
    case EnsureRootAsk(cs) => 4 * |cs| + 2
    case EnsureAt(cs, k, _) => 4 * (|cs| - k) + 1
    case EnsureAsk(cs, k, _) => 4 * (|cs| - k)
    case EnsureMake(cs, k, _) => 4 * (|cs| - k) - 1
    case EnsureKeep(cs, k, _) => 4 * (|cs| - k) - 2
  }

  lemma AdvanceIsStep(s: System, t: Tid, pc: Pc, a: Answer)
    requires Inv(s) && ThreadOf(s, t) == Running(pc)
    ensures IsGet(pc) ==> Apply(s, Advance(t, a)) == StepGet(s, t, pc, a)
    ensures IsEnsure(pc) ==> WellPlaced(pc) && Apply(s, Advance(t, a)) == StepEnsure(s, t, pc, a)
    ensures Inv(Apply(s, Advance(t, a)))
  {
    Inside(s, t, pc);
    ApplyKeepsInv(s, Advance(t, a));
    hide Inv, StepGet, StepEnsure, StepInsert;
  }

  /** One step of get without a failure led to s': it gets on, or it answers. */
  ghost predicate GetsOn(s: System, t: Tid, pc: Pc, s': System)
    requires IsGet(pc)
  {
    && s'.tree == s.tree && s'.created == s.created
    && match ThreadOf(s', t)
       case Running(pc') => IsGet(pc') && pc'.path == pc.path && 0 <= StepsLeft(pc') < StepsLeft(pc) && s'.found == s.found
       case Idle => s'.found == s.found + [Found(pc.path, Resolve(s.tree, pc.path), s.tree)] && s'.holder == None
       case _ => false
  }

  lemma GetDownStep(s: System, t: Tid, pc: Pc, id: Id)
    requires s.holder == Some(t) && pc.GetDown? && Knows(s.tree, pc)
    ensures GetsOn(s, t, pc, StepGet(s, t, pc, Fine(id)))
  {
    hide Resolve, GetParent, GetBasename, Chain;
    var GetDown(path, at, found, paths) := pc;
    if paths != [] {
      ResolveStep(s.tree, paths[0]);
      if (found, GetBasename(paths[0])) !in s.tree.kids {
        MissingAbove(s.tree, paths[0], paths[1..], path);
      }
    }
  }

  lemma GotoGetsOn(s: System, s1: System, t: Tid, pc: Pc, pc1: Pc)
    requires s1.tree == s.tree && s1.created == s.created && s1.found == s.found
    requires IsGet(pc) && IsGet(pc1) && pc1.path == pc.path && 0 <= StepsLeft(pc1) < StepsLeft(pc)
    ensures GetsOn(s, t, pc, Goto(s1, t, pc1))
  {
    hide StepsLeft, Resolve;
  }

  lemma GetUpStep(s: System, t: Tid, pc: Pc, id: Id)
    requires IsGet(pc) && !pc.GetDown? && (pc.GetKeep? ==> pc.paths != [])
    ensures GetsOn(s, t, pc, StepGet(s, t, pc, Fine(id)))
  {
    hide GetsOn, Chain, GetParent, GetBasename, Goto, Leave;
    match pc
    case GetAt(path, current, paths) =>
      if current in s.cache {
        GotoGetsOn(s, s, t, pc, GetDown(path, current, s.cache[current], paths));
      } else if current == "/" || current == "" {
        GotoGetsOn(s, s, t, pc, GetRoot(path, current, paths));
      } else {
        ChainStep(current);
        GotoGetsOn(s, s, t, pc, GetAt(path, GetParent(current), [current] + paths));
      }
    case GetRoot(path, current, paths) => GotoGetsOn(s, s, t, pc, GetRootKeep(path, current, s.tree.root, paths));
    case GetRootKeep(path, current, root, paths) =>
      GotoGetsOn(s, s.(cache := s.cache["/" := root]), t, pc, GetDown(path, current, root, paths));
    case GetKeep(path, found, paths) =>
      GotoGetsOn(s, s.(cache := s.cache[paths[0] := found]), t, pc, GetDown(path, paths[0], found, paths[1..]));
  }

  lemma GetStep(s: System, t: Tid, pc: Pc, id: Id)
    requires Inv(s) && ThreadOf(s, t) == Running(pc) && IsGet(pc)
    ensures GetsOn(s, t, pc, StepGet(s, t, pc, Fine(id)))
  {
    Inside(s, t, pc);
    hide Inv, GetsOn, StepGet, Resolve, Leads;
    if pc.GetDown? {
      GetDownStep(s, t, pc, id);
    } else {
      GetUpStep(s, t, pc, id);
    }
  }

  predicate IsLast(pc: Pc) { pc.EnsureAt? && pc.k == |pc.cs| }

  /** One step of ensure_dir without a failure gets on. */
  lemma EnsureStep(s: System, t: Tid, pc: Pc, id: Id)
    requires IsEnsure(pc) && WellPlaced(pc) && !IsLast(pc)
    ensures
      var s' := StepEnsure(s, t, pc, Fine(id));
      && ThreadOf(s', t).Running? && s'.ensured == s.ensured
      && var pc' := ThreadOf(s', t).pc;
         IsEnsure(pc') && pc'.cs == pc.cs && 0 <= StepsLeft(pc') < StepsLeft(pc)
  {
    hide Key, Gain, Chain;
  }

  /** The last step answers. */
  lemma EnsureEnd(s: System, t: Tid, pc: Pc, id: Id)
    requires Inv(s) && ThreadOf(s, t) == Running(pc) && IsLast(pc)
    ensures
      var s' := StepEnsure(s, t, pc, Fine(id));
      && ThreadOf(s', t).Idle? && s'.holder == None
      && s'.ensured == s.ensured + [(pc.cs, pc.parent)] && DirId(s'.tree, pc.cs) == Some(pc.parent)
  {
    Inside(s, t, pc);
    hide Inv, DirId;
    assert pc.cs[..pc.k] == pc.cs;
  }

  lemma RunFirst(s: System, a: Action, rest: seq<Action>)
    ensures Run(s, [a] + rest) == Run(Apply(s, a), rest)
  {
    RunConcat(s, [a], rest);
    RunOne(s, a);
  }

  /** get without failures comes to its end and answers what resolution gives. */
  lemma {:induction false} GetFinishes(s: System, t: Tid, pc: Pc, id: Id) returns (actions: seq<Action>)
    requires Inv(s) && ThreadOf(s, t) == Running(pc) && IsGet(pc)
    ensures forall a <- actions :: a == Advance(t, Fine(id))
    ensures
      var s' := Run(s, actions);
      && ThreadOf(s', t).Idle? && s'.holder == None && s'.tree == s.tree && s'.created == s.created
      && s'.found == s.found + [Found(pc.path, Resolve(s.tree, pc.path), s.tree)]
    decreases StepsLeft(pc)
  {
    AdvanceIsStep(s, t, pc, Fine(id));
    GetStep(s, t, pc, id);
    hide *;
    var s1 := Apply(s, Advance(t, Fine(id)));
    var rest := [];
    match ThreadOf(s1, t) {
      case Running(pc1) => rest := GetFinishes(s1, t, pc1, id);
      case _ => RunNothing(s1);
    }
    RunFirst(s, Advance(t, Fine(id)), rest);
    actions := [Advance(t, Fine(id))] + rest;
  }

  lemma RunNothing(s: System)
    ensures Run(s, []) == s
  {
  }

  /** ensure_dir without failures comes to its end, the directory is there, and
      its id is the answer. */
  lemma {:induction false} EnsureFinishes(s: System, t: Tid, pc: Pc, id: Id) returns (actions: seq<Action>)
    requires Inv(s) && ThreadOf(s, t) == Running(pc) && IsEnsure(pc)
    ensures forall a <- actions :: a == Advance(t, Fine(id))
    ensures
      var s' := Run(s, actions);
      && ThreadOf(s', t).Idle? && s'.holder == None
      && exists id :: s'.ensured == s.ensured + [(pc.cs, id)] && DirId(s'.tree, pc.cs) == Some(id)
    decreases StepsLeft(pc)
  {
    AdvanceIsStep(s, t, pc, Fine(id));
    var last := IsLast(pc);
    if last {
      EnsureEnd(s, t, pc, id);
    } else {
      EnsureStep(s, t, pc, id);
    }
    hide *;
    var s1 := Apply(s, Advance(t, Fine(id)));
    var rest := [];
    match ThreadOf(s1, t) {
      case Running(pc1) => rest := EnsureFinishes(s1, t, pc1, id);
      case _ => RunNothing(s1);
    }
    RunFirst(s, Advance(t, Fine(id)), rest);
    actions := [Advance(t, Fine(id))] + rest;
  }

  /** A caller that waits while nobody is inside gets its answer if it is let in
      and meets no failure: what resolution gives, or a directory that is there
      then, or its entry in the cache. Then the lock is free again. */
  lemma CallsFinish(s: System, t: Tid, op: Op, id: Id) returns (actions: seq<Action>)
    requires Inv(s) && ThreadOf(s, t) == Waiting(op) && s.holder == None && s.pending == []
    ensures forall a <- actions :: a == Acquire(t) || a == Advance(t, Fine(id))
    ensures
      var s' := Run(s, actions);
      && ThreadOf(s', t).Idle? && s'.holder == None
      && match op
         case OpGet(path) => s'.found == s.found + [Found(path, Resolve(s.tree, path), s.tree)]
         case OpInsert(path, id) => path in s'.cache && s'.cache[path] == if path in s.cache then s.cache[path] else id
         case OpEnsure(path) =>
           exists id :: s'.ensured == s.ensured + [(Components(path), id)] && DirId(s'.tree, Components(path)) == Some(id)
  {
    var s1, pc := Goto(s.(holder := Some(t)), t, Begin(op)), Begin(op);
    assert Apply(s, Acquire(t)) == s1 by {
      assert s.locking;
    }
    AcquireKeepsInv(s, t);
    assert ThreadOf(s1, t) == Running(pc) && s1.found == s.found && s1.ensured == s.ensured && s1.tree == s.tree && s1.cache == s.cache;
    var rest;
    match op {
      case OpGet(path) => rest := GetFinishes(s1, t, pc, id);
      case OpInsert(path, known) =>
        rest := [Advance(t, Fine(id))];
        RunOne(s1, Advance(t, Fine(id)));
      case OpEnsure(path) => rest := EnsureFinishes(s1, t, pc, id);
    }
    RunFirst(s, Acquire(t), rest);
    actions := [Acquire(t)] + rest;
    hide Run, Inv, Components, DirId, Resolve;
  }

  // ---------------------------------------------------------------------
  // Without the lock.

  lemma RunTwo(s: System, first: seq<Action>, a: Action, b: Action)
    ensures Run(s, first + [a, b]) == Apply(Apply(Run(s, first), a), b)
  {
    hide Apply;
    assert (first + [a, b])[..|first| + 1] == first + [a];
    assert (first + [a])[..|first|] == first;
  }

  // What the steps on the way to a creation do.

  lemma AdvanceRoot(s: System, t: Tid, cs: seq<string>, root: Id)
    requires s.tree.root == root && "/" !in s.cache
    ensures ThreadOf(s, t) == Running(EnsureRoot(cs)) ==> Apply(s, Advance(t, Fine(""))) == Goto(s, t, EnsureRootAsk(cs))
    ensures ThreadOf(s, t) == Running(EnsureRootAsk(cs)) ==> Apply(s, Advance(t, Fine(""))) == Goto(s, t, EnsureAt(cs, 0, root))
  {
    hide StepGet, StepInsert, Key;
  }

  lemma AdvanceAt(s: System, t: Tid, cs: seq<string>, k: nat, parent: Id)
    requires k < |cs| && Key(cs, k) !in s.cache && (parent, cs[k] + "/") !in s.tree.kids
    ensures ThreadOf(s, t) == Running(EnsureAt(cs, k, parent)) ==>
              Apply(s, Advance(t, Fine(""))) == Goto(s, t, EnsureAsk(cs, k, parent))
    ensures ThreadOf(s, t) == Running(EnsureAsk(cs, k, parent)) ==>
              Apply(s, Advance(t, Fine(""))) == Goto(s, t, EnsureMake(cs, k, parent))
  {
    hide StepGet, StepInsert, Key;
  }

  lemma AdvanceKeep(s: System, t: Tid, cs: seq<string>, k: nat, id: Id, a: Answer)
    requires k < |cs| && ThreadOf(s, t) == Running(EnsureKeep(cs, k, id))
    ensures Apply(s, Advance(t, a)) == Goto(s.(cache := s.cache[Key(cs, k) := id]), t, EnsureAt(cs, k + 1, id))
  {
    hide StepGet, StepInsert, Key;
  }

  lemma AdvanceMake(s: System, t: Tid, cs: seq<string>, k: nat, parent: Id, id: Id)
    requires k < |cs| && ThreadOf(s, t) == Running(EnsureMake(cs, k, parent))
    ensures Apply(s, Advance(t, Fine(id))) == Goto(Create(s, (parent, cs[k] + "/"), id), t, EnsureKeep(cs, k, id))
  {
    hide StepGet, StepInsert, Key, Create;
  }

  /** Two callers in the middle of their calls. */
  function Two(s: System, pc0: Pc, pc1: Pc): System {
    s.(threads := map[0 := Running(pc0), 1 := Running(pc1)])
  }

  lemma TwoGoto(s: System, pc0: Pc, pc1: Pc, pc: Pc)
    ensures Goto(Two(s, pc0, pc1), 0, pc) == Two(s, pc, pc1)
    ensures Goto(Two(s, pc0, pc1), 1, pc) == Two(s, pc0, pc)
    ensures ThreadOf(Two(s, pc0, pc1), 0) == Running(pc0) && ThreadOf(Two(s, pc0, pc1), 1) == Running(pc1)
  {
    assert Goto(Two(s, pc0, pc1), 0, pc).threads == Two(s, pc, pc1).threads;
    assert Goto(Two(s, pc0, pc1), 1, pc).threads == Two(s, pc0, pc).threads;
  }

  function Both(s: System, answer0: Answer, answer1: Answer): System {
    Apply(Apply(s, Advance(0, answer0)), Advance(1, answer1))
  }

  lemma RaceStart(s: System)
    requires s == Init(false, s.tree)
    ensures
      var op := OpEnsure("a");
      Apply(Apply(Apply(Apply(s, Start(0, op)), Start(1, op)), Acquire(0)), Acquire(1))
      == Two(s, EnsureRoot(["a"]), EnsureRoot(["a"]))
  {
    ComponentsOfSlashless("a");
    hide Components, Step;
  }

  lemma RaceLookups(s: System, cs: seq<string>, root: Id)
    requires s.cache == map[] && s.tree == Tree(root, map[]) && |cs| == 1
    ensures Both(Two(s, EnsureRoot(cs), EnsureRoot(cs)), Fine(""), Fine(""))
         == Two(s, EnsureRootAsk(cs), EnsureRootAsk(cs))
    ensures Both(Two(s, EnsureRootAsk(cs), EnsureRootAsk(cs)), Fine(""), Fine(""))
         == Two(s, EnsureAt(cs, 0, root), EnsureAt(cs, 0, root))
  {
    hide Apply;
    var a, b, c := EnsureRoot(cs), EnsureRootAsk(cs), EnsureAt(cs, 0, root);
    TwoGoto(s, a, a, b);
    TwoGoto(s, b, a, b);
    TwoGoto(s, b, b, c);
    TwoGoto(s, c, b, c);
    AdvanceRoot(Two(s, a, a), 0, cs, root);
    AdvanceRoot(Two(s, b, a), 1, cs, root);
    AdvanceRoot(Two(s, b, b), 0, cs, root);
    AdvanceRoot(Two(s, c, b), 1, cs, root);
    hide Two, Goto, ThreadOf;
  }

  lemma RaceQueries(s: System, cs: seq<string>, root: Id)
    requires s.cache == map[] && s.tree == Tree(root, map[]) && |cs| == 1
    ensures Both(Two(s, EnsureAt(cs, 0, root), EnsureAt(cs, 0, root)), Fine(""), Fine(""))
         == Two(s, EnsureAsk(cs, 0, root), EnsureAsk(cs, 0, root))
    ensures Both(Two(s, EnsureAsk(cs, 0, root), EnsureAsk(cs, 0, root)), Fine(""), Fine(""))
         == Two(s, EnsureMake(cs, 0, root), EnsureMake(cs, 0, root))
  {
    hide Apply, Key;
    var a, b, c := EnsureAt(cs, 0, root), EnsureAsk(cs, 0, root), EnsureMake(cs, 0, root);
    TwoGoto(s, a, a, b);
    TwoGoto(s, b, a, b);
    TwoGoto(s, b, b, c);
    TwoGoto(s, c, b, c);
    AdvanceAt(Two(s, a, a), 0, cs, 0, root);
    AdvanceAt(Two(s, b, a), 1, cs, 0, root);
    AdvanceAt(Two(s, b, b), 0, cs, 0, root);
    AdvanceAt(Two(s, c, b), 1, cs, 0, root);
    hide Two, Goto, ThreadOf;
  }

  lemma RaceCreates(s: System, cs: seq<string>, root: Id, x: Id, y: Id) returns (s': System)
    requires s.created == [] && |cs| == 1
    ensures s'.ensured == s.ensured && s'.holder == s.holder && s'.created == [(root, cs[0] + "/"), (root, cs[0] + "/")]
    ensures Both(Two(s, EnsureMake(cs, 0, root), EnsureMake(cs, 0, root)), Fine(x), Fine(y))
         == Two(s', EnsureKeep(cs, 0, x), EnsureKeep(cs, 0, y))
  {
    hide Apply, Gain;
    var make, pair := EnsureMake(cs, 0, root), (root, cs[0] + "/");
    TwoGoto(s, make, make, make);
    AdvanceMake(Two(s, make, make), 0, cs, 0, root, x);
    var s1 := Create(s, pair, x);
    assert Create(Two(s, make, make), pair, x) == Two(s1, make, make);
    TwoGoto(s1, make, make, EnsureKeep(cs, 0, x));
    TwoGoto(s1, EnsureKeep(cs, 0, x), make, make);
    AdvanceMake(Two(s1, EnsureKeep(cs, 0, x), make), 1, cs, 0, root, y);
    s' := Create(s1, pair, y);
    assert Create(Two(s1, EnsureKeep(cs, 0, x), make), pair, y) == Two(s', EnsureKeep(cs, 0, x), make);
    TwoGoto(s', EnsureKeep(cs, 0, x), make, EnsureKeep(cs, 0, y));
  }

  lemma RaceInserts(s: System, cs: seq<string>, x: Id, y: Id) returns (s': System)
    requires |cs| == 1
    ensures s'.ensured == s.ensured && s'.holder == s.holder && s'.created == s.created
    ensures Both(Two(s, EnsureKeep(cs, 0, x), EnsureKeep(cs, 0, y)), Fine(""), Fine(""))
         == Two(s', EnsureAt(cs, 1, x), EnsureAt(cs, 1, y))
  {
    hide Apply, Key;
    var s0 := Two(s, EnsureKeep(cs, 0, x), EnsureKeep(cs, 0, y));
    AdvanceKeep(s0, 0, cs, 0, x, Fine(""));
    var s1 := Apply(s0, Advance(0, Fine("")));
    assert s1.threads == map[0 := Running(EnsureAt(cs, 1, x)), 1 := Running(EnsureKeep(cs, 0, y))];
    AdvanceKeep(s1, 1, cs, 0, y, Fine(""));
    s' := Apply(s1, Advance(1, Fine("")));
  }

  lemma RaceReturns(s: System, cs: seq<string>, x: Id, y: Id)
    requires |cs| == 1
    ensures
      var s' := Both(Two(s, EnsureAt(cs, 1, x), EnsureAt(cs, 1, y)), Fine(""), Fine(""));
      s'.ensured == s.ensured + [(cs, x), (cs, y)] && s'.created == s.created
  {
    hide DirKey;
    assert s.ensured + [(cs, x)] + [(cs, y)] == s.ensured + [(cs, x), (cs, y)];
  }

  /** No action starts an insert or leaves a creation under way. */
  ghost predicate Plain(actions: seq<Action>) {
    forall a <- actions :: (a.Start? ==> !a.op.OpInsert?) && !a.GiveUp? && (a.Advance? ==> !a.answer.FailSent?)
  }

  lemma PlainStep(s: System, a: Action)
    requires s.pending == [] && !a.GiveUp? && (a.Advance? ==> !a.answer.FailSent?)
    ensures Apply(s, a).pending == []
  {
    hide Begin, Gain, Step;
    if a.Advance? && ThreadOf(s, a.t).Running? {
      StepKeepsRest(s, a.t, ThreadOf(s, a.t).pc, a.answer);
    }
  }

  lemma {:induction false} PlainIsGood(s: System, actions: seq<Action>)
    requires Plain(actions) && s.pending == []
    ensures InformedRun(s, actions) && PromptRun(s, actions) && Run(s, actions).pending == []
  {
    if actions != [] {
      PlainIsGood(s, actions[..|actions| - 1]);
      assert actions[|actions| - 1] in actions;
      PlainStep(Run(s, actions[..|actions| - 1]), actions[|actions| - 1]);
      hide Apply;
    }
  }

  lemma RunBoth(s: System, first: seq<Action>, answer0: Answer, answer1: Answer) returns (next: seq<Action>)
    requires Plain(first) && !answer0.FailSent? && !answer1.FailSent?
    ensures Run(s, next) == Both(Run(s, first), answer0, answer1) && Plain(next)
  {
    next := first + [Advance(0, answer0), Advance(1, answer1)];
    RunTwo(s, first, Advance(0, answer0), Advance(1, answer1));
  }

  /** Without the lock two callers that ensure the same directory may both find
      it missing and both create it, and then hold different ids. */
  lemma UnlockedRaces() returns (tree: Tree, actions: seq<Action>)
    ensures InformedRun(Init(false, tree), actions) && PromptRun(Init(false, tree), actions)
    ensures
      var s := Run(Init(false, tree), actions);
      && |s.created| == 2 && s.created[0] == s.created[1]
      && |s.ensured| == 2 && s.ensured[0].0 == s.ensured[1].0 && s.ensured[0].1 != s.ensured[1].1
  {
    tree := Tree("r", map[]);
    var op, cs, fine := OpEnsure("a"), ["a"], Fine("");
    var s := Init(false, tree);
    assert s.cache == map[] && s.tree == tree && s.created == [] && s.ensured == [] && s.pending == [];
    assert Run(s, []) == s;
    actions := [] + [Start(0, op), Start(1, op)] + [Acquire(0), Acquire(1)];
    assert Plain(actions);
    hide *;
    RunTwo(s, [], Start(0, op), Start(1, op));
    RunTwo(s, [] + [Start(0, op), Start(1, op)], Acquire(0), Acquire(1));
    RaceStart(s);
    RaceLookups(s, cs, "r");
    actions := RunBoth(s, actions, fine, fine);
    actions := RunBoth(s, actions, fine, fine);
    actions := RunBoth(s, actions, fine, fine);
    RaceQueries(s, cs, "r");
    actions := RunBoth(s, actions, fine, fine);
    var s1 := RaceCreates(s, cs, "r", "x", "y");
    actions := RunBoth(s, actions, Fine("x"), Fine("y"));
    var s2 := RaceInserts(s1, cs, "x", "y");
    actions := RunBoth(s, actions, fine, fine);
    RaceReturns(s2, cs, "x", "y");
    actions := RunBoth(s, actions, fine, fine);
    PlainIsGood(s, actions);
  }

  // ---------------------------------------------------------------------
  // With the lock, but with a creation that lands late.

  /** The actions of a caller from getting in to the point where it is about to
      create the directory "a". */
  function ToMake(t: Tid): seq<Action> {
    [Acquire(t), Advance(t, Fine("")), Advance(t, Fine("")), Advance(t, Fine("")), Advance(t, Fine(""))]
  }

  lemma {:induction false} RunConcat(s: System, a: seq<Action>, b: seq<Action>)
    ensures Run(s, a + b) == Run(Run(s, a), b)
  {
    hide Apply;
    if b == [] {
      assert a + b == a;
    } else {
      RunConcat(s, a, b[..|b| - 1]);
      assert (a + b)[..|a + b| - 1] == a + b[..|b| - 1];
    }
  }

  lemma RunFive(s: System, five: seq<Action>)
    requires |five| == 5
    ensures Run(s, five) == Apply(Apply(Apply(Apply(Apply(s, five[0]), five[1]), five[2]), five[3]), five[4])
  {
    hide Apply;
    assert five[..4][..3] == five[..3] && five[..3][..2] == five[..2] && five[..2][..1] == five[..1] && five[..1][..0] == [];
    assert Run(s, five[..1]) == Apply(s, five[0]);
    assert Run(s, five[..2]) == Apply(Run(s, five[..1]), five[1]);
    assert Run(s, five[..3]) == Apply(Run(s, five[..2]), five[2]);
    assert Run(s, five[..4]) == Apply(Run(s, five[..3]), five[3]);
  }

  /** A caller alone with an empty service and cache gets to the creation. */
  lemma ReachMake(s: System, t: Tid, root: Id)
    requires s.locking && s.holder == None && s.cache == map[] && s.tree == Tree(root, map[])
    requires ThreadOf(s, t) == Waiting(OpEnsure("a"))
    ensures Run(s, ToMake(t)) == Goto(s.(holder := Some(t)), t, EnsureMake(["a"], 0, root))
  {
    var cs, h := ["a"], s.(holder := Some(t));
    RunFive(s, ToMake(t));
    ComponentsOfSlashless("a");
    assert Apply(s, Acquire(t)) == Goto(h, t, EnsureRoot(cs));
    hide Run, Apply, Components, Key;
    GotoTwice(h, t, EnsureRoot(cs), EnsureRootAsk(cs));
    AdvanceRoot(Goto(h, t, EnsureRoot(cs)), t, cs, root);
    GotoTwice(h, t, EnsureRootAsk(cs), EnsureAt(cs, 0, root));
    AdvanceRoot(Goto(h, t, EnsureRootAsk(cs)), t, cs, root);
    GotoTwice(h, t, EnsureAt(cs, 0, root), EnsureAsk(cs, 0, root));
    AdvanceAt(Goto(h, t, EnsureAt(cs, 0, root)), t, cs, 0, root);
    GotoTwice(h, t, EnsureAsk(cs, 0, root), EnsureMake(cs, 0, root));
    AdvanceAt(Goto(h, t, EnsureAsk(cs, 0, root)), t, cs, 0, root);
  }

  lemma GotoTwice(s: System, t: Tid, first: Pc, second: Pc)
    ensures Goto(Goto(s, t, first), t, second) == Goto(s, t, second) && ThreadOf(Goto(s, t, first), t) == Running(first)
  {
    assert s.threads[t := Running(first)][t := Running(second)] == s.threads[t := Running(second)];
  }

  lemma {:induction false} InsertFreeIsInformed(s: System, actions: seq<Action>)
    requires forall a <- actions :: a.Start? ==> !a.op.OpInsert?
    ensures InformedRun(s, actions)
  {
    if actions != [] {
      InsertFreeIsInformed(s, actions[..|actions| - 1]);
      assert actions[|actions| - 1] in actions;
    }
  }

  /** Both callers wait. */
  function BothWait(root: Id): System {
    Init(true, Tree(root, map[])).(threads := map[0 := Waiting(OpEnsure("a")), 1 := Waiting(OpEnsure("a"))])
  }

  /** The first caller has left, and its creation is under way. */
  function OneLeft(root: Id): System {
    BothWait(root).(threads := map[0 := Idle, 1 := Waiting(OpEnsure("a"))], pending := [(root, "a/")])
  }

  lemma FirstLeaves(root: Id)
    ensures Run(Init(true, Tree(root, map[])), [Start(0, OpEnsure("a")), Start(1, OpEnsure("a"))] + ToMake(0) + [GiveUp(0, true)])
         == OneLeft(root)
  {
    var s, starts := Init(true, Tree(root, map[])), [Start(0, OpEnsure("a")), Start(1, OpEnsure("a"))];
    RunConcat(s, starts + ToMake(0), [GiveUp(0, true)]);
    RunConcat(s, starts, ToMake(0));
    RunTwo(s, [], starts[0], starts[1]);
    assert [] + [starts[0], starts[1]] == starts && Run(s, []) == s;
    assert Apply(Apply(s, starts[0]), starts[1]) == BothWait(root);
    ReachMake(BothWait(root), 0, root);
    var made := Goto(BothWait(root).(holder := Some(0)), 0, EnsureMake(["a"], 0, root));
    RunOne(made, GiveUp(0, true));
    hide Run, Apply;
    LeavesSent(root);
  }

  lemma LeavesSent(root: Id)
    ensures Apply(Goto(BothWait(root).(holder := Some(0)), 0, EnsureMake(["a"], 0, root)), GiveUp(0, true)) == OneLeft(root)
  {
    hide Step;
    var s := Goto(BothWait(root).(holder := Some(0)), 0, EnsureMake(["a"], 0, root));
    assert ["a"][0] + "/" == "a/";
    assert Apply(s, GiveUp(0, true)) == LeaveSent(s, 0, (root, "a/"));
    assert LeaveSent(s, 0, (root, "a/")).threads == map[0 := Idle, 1 := Waiting(OpEnsure("a"))];
  }

  lemma MakeThenLand(s: System, t: Tid, root: Id, x: Id, y: Id)
    requires ThreadOf(s, t) == Running(EnsureMake(["a"], 0, root)) && s.created == [] && s.pending == [(root, "a/")]
    ensures Apply(Apply(s, Advance(t, Fine(y))), Land(0, x)).created == [(root, "a/"), (root, "a/")]
  {
    AdvanceMake(s, t, ["a"], 0, root, y);
    hide Step, Gain;
    var pair := (root, "a/");
    assert ["a"][0] + "/" == "a/";
    assert Apply(s, Advance(t, Fine(y))) == Goto(Create(s, pair, y), t, EnsureKeep(["a"], 0, y));
    assert Create(s, pair, y).created == [pair];
  }

  lemma SecondCreates(root: Id, x: Id, y: Id)
    ensures Run(OneLeft(root), ToMake(1) + [Advance(1, Fine(y)), Land(0, x)]).created == [(root, "a/"), (root, "a/")]
  {
    var s, end := OneLeft(root), [Advance(1, Fine(y)), Land(0, x)];
    RunConcat(s, ToMake(1), end);
    ReachMake(s, 1, root);
    var made := Goto(s.(holder := Some(1)), 1, EnsureMake(["a"], 0, root));
    assert Run(made, []) == made;
    hide Run, Apply, ToMake;
    RunTwo(made, [], end[0], end[1]);
    assert [] + end == end;
    MakeThenLand(made, 1, root, x, y);
  }

  /** Even with the lock: a caller gives up while its creation is under way, the
      next one does not find the directory and creates it, then the first
      creation lands. */
  lemma LateCreationRaces() returns (tree: Tree, actions: seq<Action>)
    ensures InformedRun(Init(true, tree), actions)
    ensures var s := Run(Init(true, tree), actions); |s.created| == 2 && s.created[0] == s.created[1]
  {
    tree := Tree("r", map[]);
    var op := OpEnsure("a");
    var first, second := [Start(0, op), Start(1, op)] + ToMake(0) + [GiveUp(0, true)], ToMake(1) + [Advance(1, Fine("y")), Land(0, "x")];
    actions := first + second;
    InsertFreeIsInformed(Init(true, tree), actions);
    hide *;
    RunConcat(Init(true, tree), first, second);
    FirstLeaves("r");
    SecondCreates("r", "x", "y");
  }

  lemma RunOne(s: System, a: Action)
    ensures Run(s, [a]) == Apply(s, a)
  {
    assert [a][..0] == [];
  }

  /** In this run some directory was created twice. With `prompt`, creations do
      not land late in it. */
  ghost predicate Duplicates(locking: bool, prompt: bool, tree: Tree, actions: seq<Action>) {
    var s := Init(locking, tree);
    InformedRun(s, actions) && (prompt ==> PromptRun(s, actions)) && !Distinct(Run(s, actions).created)
  }

  /** Directories are never created twice, in any run over any service, exactly
      if the lock is in use and no creation lands after the caller it was made for
      left and the next one got in. */
  lemma NeverTwiceExactly(locking: bool, prompt: bool)
    ensures (forall tree, actions :: !Duplicates(locking, prompt, tree, actions)) <==> locking && prompt
  {
    hide Run, InformedRun, PromptRun;
    if locking && prompt {
      forall tree, actions
        ensures !Duplicates(locking, prompt, tree, actions)
      {
        if Duplicates(locking, prompt, tree, actions) {
          LockedRunsAreRight(tree, actions);
          assert false;
        }
      }
    } else if locking {
      var tree, actions := LateCreationRaces();
      assert Duplicates(locking, prompt, tree, actions);
    } else {
      var tree, actions := UnlockedRaces();
      assert Duplicates(locking, prompt, tree, actions);
    }
  }
}
