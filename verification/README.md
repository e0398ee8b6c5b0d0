# Verified model of OpenDAL's core

A Dafny model of the stateful parts of Apache OpenDAL's Rust core, with proofs
about whole runs: the concurrent task queue and the ordered stream of futures,
the retrying reader and writer stack, the path-to-id cache and its lock, the
immutable index and the emulated recursive listing, the permit protocol of the
concurrency limit, and the path algebra they rest on.

`dafny verify dfyconfig.toml` checks everything.

## How it is built

Each component is a state (`datatype`), functions that say what one call does to
it, a class whose methods follow the source's own loops and assignments and are
proved equal to those functions, and lemmas about every run of them. What the
source gets from outside (the executor, the storage service, the clock, the
cache's eviction, the caller that drops a future) is the environment: an
explicit argument, or a nondeterministic choice, so that each theorem is for
every behaviour of it.

| file | component |
|---|---|
| `Common.dfy` | errors, their retry status, results |
| `ConcurrentTasks.dfy` | `ConcurrentTasks` |
| `ConcurrentFutures.dfy` | `ConcurrentFutures`, forms Once and Small |
| `Retry.dfy` | `RetryWrapper` for any inner object, with dropped futures |
| `RetryRead.dfy` | `RetryReader` over `CompleteReader` |
| `RetryWrite.dfy` | `RetryWrapper` over `CompleteWriter` |
| `Paths.dfy` | normalization, absolute and relative paths, parents and basenames |
| `PathCache.dfy` | `PathCacher` over an id-based service |
| `PathCacheRuns.dfy` | `PathCacher` under every interleaving of its callers |
| `FlatListing.dfy` | `FlatLister`: recursive listing by walking directories |
| `ImmutableIndex.dfy` | the immutable index, its walk, and prefix listing |
| `ConcurrentLimit.dfy` | permits of the concurrency limit below every kind of client |

Assumptions about what lies outside the repository, all of them visible as
hypotheses or as the environment's choices: the executor keeps a spawned future
until it resolves and a handle gives its value once; backon makes at most
`max_times` further attempts and only after a temporary error; moka is a map that
may drop entries at any time; tokio's mutex has one holder; its semaphore hands
out at most the configured permits; a future that is ready stays ready; a service
gives an empty buffer only at the end of a connection's data; a service's lister
that fails to give its next entry stays where it was, and one that has ended stays
ended.

## What the code does against its own words

- `normalize_root` keeps outer whitespace although its comment promises to trim
  it: " a" gives "/ a/" (`NormalizeRootDoesNotTrim`). `NormalizeRootTrimsExactly`
  says that the promise is kept only where there is nothing to trim.
- `normalize_path` is not idempotent: "/ abc" gives " abc", which gives "abc".
  `NormalizePathIdempotentExactly` says for which paths it is.
- `PathCacher` says that cached paths are absolute, but `ensure_dir` caches only
  keys without the leading slash (`PathCacher.EnsureDir`); the keys it visits are
  absolute only where there are none (`KeysAbsoluteExactly`). `BothKeysSameId` shows
  that both forms denote one id.
- `FlatLister` forgets a directory whose listing failed: calling it again goes on
  without that directory and everything below it. `CollectRetrying` says exactly
  what a caller that calls again gets and when that is everything, and
  `RetryFindsNothing` when it is told that there is nothing at all.
- An empty buffer does not always mean the end: if the size asked for is not known,
  a connection that breaks off early is taken for it (`UncheckedEndCanLie`).
  `EndIsBelievableExactly` gives the exact condition.
- A deleter whose `flush` future was dropped midway does not report the bad state at
  the next `delete` but panics, because `delete` unwraps. `RefusedExactly` says when
  either happens.
- Making the root itself absolute and relative again gives "" and not "/"
  (`RelPathUndoesAbsPath`).
- Walking the index from the root does not reach keys that begin with a slash.
  `WalkCompleteExactly` gives the exact condition.
- `PrefixLister` keeps the entry that equals the prefix, which the index's own
  listing of that prefix leaves out; `PrefixListing` states both.
- Without its optional lock `PathCacher` can create one directory twice
  (`UnlockedRaces`), and even with it if a creation whose caller gave up lands after
  the next caller got in (`LateCreationRaces`). `NeverTwiceExactly` says that these
  are the only cases.

## Model

| member | source | states |
|---|---|---|
| ConcurrentTasks.RunsAreFifo | core/src/raw/futures_util.rs:151-271 | For every capacity, call sequence, schedule and pattern of failures: the inputs answered Ok are, in order, those delivered by `next`, those whose output waits and those in flight; in-flight tasks never exceed the capacity and are never finished ones; an errored queue is empty. |
| ConcurrentTasks.ExecuteKeepsFifo | core/src/raw/futures_util.rs:151-231 | One `execute`, in every branch, keeps the order: its input joins the end exactly if it is answered Ok. |
| ConcurrentTasks.NextKeepsFifo | core/src/raw/futures_util.rs:235-270 | One `next` takes the oldest output or changes nothing that was accepted. |
| ConcurrentTasks.ExecuteExactly | core/src/raw/futures_util.rs:172-230 | A concurrent `execute` looks at up to two tasks at the front, as readiness and room say; if they succeeded it takes their outputs and starts the new task in the background, answering Ok whatever that will give; otherwise it answers the first one's error, restarts that one in place or gives all up, and starts nothing new. |
| ConcurrentTasks.ExecuteInBackground | core/src/raw/futures_util.rs:198-203 | With room and no front task ready, `execute` answers Ok whatever the new task will give, results stay, and one more task is in flight. |
| ConcurrentTasks.ExecuteInline | core/src/raw/futures_util.rs:159-170 | Without concurrency a task runs inside the call: its output waits, or its error is the answer and nothing changes. |
| ConcurrentTasks.NextExactly | core/src/raw/futures_util.rs:235-270 | `next` hands out the oldest output, waits for the front task only if there is none, passes its error on, and ends exactly if nothing is left. |
| ConcurrentTasks.ErrorsComeFromTasks | core/src/raw/futures_util.rs:176-229 | An error of a concurrent queue that has not given up is the outcome of a task in flight before the call, cause included. |
| ConcurrentTasks.FatalExactly | core/src/raw/futures_util.rs:159-170 | The queue gives up exactly when it is concurrent and a call answers with an error that is not temporary; the non-concurrent path never does. |
| ConcurrentTasks.FatalIsAbsorbing | core/src/raw/futures_util.rs:152-157 | After giving up, no sequence of calls changes the queue and every `execute` and `next` errs. |
| ConcurrentTasks.ExecuteDebt | core/src/raw/futures_util.rs:173-229 | With temporary failures only, a refused `execute` uses up one of the failures still to come. |
| ConcurrentTasks.SubmitAllThenDrain | core/src/raw/futures_util.rs:540-561 | A client that resubmits until Ok and then drains terminates with exactly one output per input, in input order, for every capacity, schedule and finite pattern of temporary failures. |
| ConcurrentTasks.TaskQueue.Submit | core/src/raw/futures_util.rs:151-231 | The source's loop does what the closed form says, in at most two iterations, and takes a handle's value only once. |
| ConcurrentTasks.TaskQueue.Fetch | core/src/raw/futures_util.rs:235-270 | `next` as a state change. |
| ConcurrentTasks.TaskQueue.RecoverFront | core/src/raw/futures_util.rs:183-191 | A temporary failure restarts the front task in place; any other clears the queue for good. |
| ConcurrentTasks.TaskQueue.ClearAll | core/src/raw/futures_util.rs:129-132 | `clear` empties both queues and leaves the error state. |
| ConcurrentFutures.RunsAreQueues | core/src/raw/futures_util.rs:323-454 | Under every readiness schedule Once and Small give the same answers as one queue of futures: Pending changes nothing, an item is the head's output, the end means empty; a poll drives every future that is ready to its output, not just the head; the length never exceeds `concurrent`. |
| ConcurrentFutures.Futures.Next | core/src/raw/futures_util.rs:414-454 | `poll_next` as a state change; a future that has resolved is never polled again. |
| ConcurrentFutures.Futures.PollAll | core/src/raw/futures_util.rs:425-435 | The sweep replaces exactly the ready futures by their outputs, in place. |
| ConcurrentFutures.Futures.Push | core/src/raw/futures_util.rs:376-405 | With space left, a push adds at the chosen end and overwrites nothing. |
| ConcurrentFutures.Futures.Remaining | core/src/raw/futures_util.rs:366-368 | The remaining space never underflows. |
| Retry.LoopExactly | core/src/layers/retry.rs:565-579 | A retry loop makes one to `max_times` + 1 attempts; all but the last failed with a temporary error; it stops early only on success or an error that is not temporary. |
| Retry.FirstDecides | core/src/layers/retry.rs:565-579 | The loop ends with the first attempt that does not fail with a temporary error, if that is among the first `max_times` + 1. |
| Retry.RepliesTellTheLastAttempt | core/src/layers/retry.rs:579-580 | Over every run, a reply that is not a refusal has the value or the cause of the call's last attempt, and no reported error is temporary. |
| Retry.DroppedExactly | core/src/layers/retry.rs:565-579 | A call is dropped exactly if its future is let go of during an attempt that is made, and the inner object is then lost with the effect of the attempts so far. |
| Retry.UncutRunsStayGood | core/src/layers/retry.rs:549-581 | If no future is dropped, the inner object is present at every call boundary and every reply is the inner object's own, so the bad-state error and the unwraps cannot fire. |
| Retry.DroppedIsForever | core/src/layers/retry.rs:549-556 | After a future was dropped midway every later future is refused with the bad-state error, every direct call (such as `delete`) panics, and the inner object is not touched. |
| Retry.RefusedExactly | core/src/layers/retry.rs:736-768 | A direct call panics, and a future gets the bad-state error, exactly if an earlier future of the same wrapper was dropped midway. |
| Retry.RetryWrapper.TakeInner | core/src/layers/retry.rs:549-556 | Takes the inner object out, or errs if it is gone. |
| Retry.RetryWrapper.Invoke | core/src/layers/retry.rs:607-672 | Take, attempt with retries, put back; or lose the inner object if dropped. |
| Retry.RetryWrapper.InvokeDirect | core/src/layers/retry.rs:675-696 | The calls that are no futures: attempts in place on the unwrapped inner object, with the same outcome as a future that is not dropped, or a panic. |
| RetryRead.NoByteLostOrDuplicated | core/src/layers/retry.rs:493-511 | For any chunk sizes, read errors, reopen errors, early ends and given-up calls, the joined buffers are a prefix of the requested range. |
| RetryRead.EndMeansAll | core/src/layers/retry.rs:318-330 | If connections do not end early, an empty buffer means that all of the range was delivered. |
| RetryRead.CheckedEndMeansAll | core/src/layers/complete.rs:360-366 | With `CompleteReader` below and a known size, an empty buffer means that exactly the requested range was delivered, even over connections that end early without an error. |
| RetryRead.CheckedEndCounts | core/src/layers/complete.rs:438-471 | The same as a byte count, for a service that sends any bytes but not more than asked for. |
| RetryRead.EndIsBelievableExactly | core/src/layers/complete.rs:438-471 | For every content and range: every run over connections that only send right bytes and ends in an empty buffer has delivered the whole range, if and only if the size is checked and known or there is nothing to deliver. |
| RetryRead.UncheckedEndCanLie | core/src/layers/complete.rs:438-442 | In every other case there is a run that ends in an empty buffer too early. |
| RetryRead.ReadOnceTracks | core/src/layers/retry.rs:493-511 | Each attempt keeps: the range starts right after the delivered bytes, its size never underflows, and the open connection continues there. |
| RetryRead.ReadOnceExactly | core/src/layers/retry.rs:493-511 | An attempt's error is the service's own, or at the end of the data that of the size check, too little exactly if fewer bytes were read and too much exactly if more; it drops the connection and keeps the range. Otherwise the next bytes are delivered. |
| RetryRead.OpenErrorIsTold | core/src/layers/retry.rs:496-503 | If reopening fails, the attempt fails with that error and changes nothing. |
| RetryRead.ReadIsRetried | core/src/layers/retry.rs:565-579 | If the service fails with temporary errors at first and then not, within `max_times` + 1 attempts, the call gives the next bytes, and none exactly if all were delivered. |
| RetryRead.SliceExactly | core/src/raw/http_util/bytes_range.rs:41-82 | A range asks for the bytes from its offset on, as many as its size says and the content has. |
| RetryRead.ReadToEnd | core/src/layers/retry.rs:559-581 | A caller that reads until the empty buffer terminates with exactly the requested range, for every finite pattern of failures; with the size checked and known these include connections that break off early without an error. |
| RetryRead.RetryReader.Read | core/src/layers/retry.rs:493-511 | The source's loop is one reopen if needed and one read. |
| RetryRead.SliceAdvance | core/src/raw/http_util/bytes_range.rs:79-82 | Advancing a range drops the delivered bytes from what it asks for, without underflow. |
| RetryWrite.RunsAreOneShot | core/src/layers/complete.rs:508-541 | Over every run the innermost writer sees at most one successful close or abort and nothing after it, and at most (`max_times` + 1) calls per wrapper call. |
| RetryWrite.CallBudget | core/src/layers/retry.rs:607-672 | One wrapper call makes at most `max_times` + 1 inner calls, and none once finished or lost. |
| RetryWrite.RepliesAreTheWriters | core/src/layers/complete.rs:512-540 | Over every run: write, close or abort is answered Ok if and only if this call passed it down and its last attempt succeeded; an error keeps the cause of that attempt, or says that the writer is finished or was lost. |
| RetryWrite.CallTells | core/src/layers/retry.rs:607-672 | One call on an open writer passes its attempts down in order and tells the last answer; a finished writer refuses and nothing changes. |
| RetryWrite.StoredIsAcknowledged | core/src/layers/retry.rs:608-628 | If failed writes have no effect, the stored bytes are the joined buffers of the acknowledged writes; after a call was dropped midway they may end with that call's bytes too. |
| RetryWrite.CompleteWriter.Put | core/src/layers/complete.rs:512-518 | `write` passes down while open. |
| RetryWrite.CompleteWriter.Finish | core/src/layers/complete.rs:520-540 | close and abort let go of the writer exactly on success. |
| Paths.NormalizePathShape | core/src/raw/path.rs:96-120 | For every string, cut into outer whitespace and a middle part: the result is "/" or has no leading slash and no "//"; it keeps the components and the trailing slash of the middle part. |
| Paths.PathCut | core/src/raw/path.rs:97-101 | Every string has such a cut. |
| Paths.TrimIsTheMiddle | core/src/raw/path.rs:99-99 | Trimming gives back what is between two pieces of whitespace. |
| Paths.SpaceSamples | core/src/raw/path.rs:99-99 | Blanks, tabs, line ends and wide spaces are whitespace; no printable ASCII character is. |
| Paths.ComponentsConcat | core/src/raw/path.rs:108-113 | The components of two strings joined by a slash are those of the first followed by those of the second. |
| Paths.ComponentsOfSlashless | core/src/raw/path.rs:108-113 | A string without slashes is its own only component, or has none if empty. |
| Paths.NormalizePathFixedPoints | core/src/raw/path.rs:96-120 | Exactly the normal strings without outer whitespace are left alone. |
| Paths.NormalizePathIdempotentExactly | core/src/raw/path.rs:96-120 | Idempotent exactly if what is left without outer whitespace and leading slashes does not begin with whitespace. |
| Paths.NormalizePathIsNotIdempotent | core/src/raw/path.rs:97-99 | A concrete path at which it is not. |
| Paths.NormalizeRootShape | core/src/raw/path.rs:134-147 | Always begins and ends with a slash, has no "//", keeps the components, whitespace included, and is idempotent for every input. |
| Paths.NormalizeRootTrimsExactly | core/src/raw/path.rs:122-147 | The root is normalized as its trimmed form is, as the comment promises, if and only if it has no outer whitespace. |
| Paths.NormalizeRootDoesNotTrim | core/src/raw/path.rs:126-139 | A concrete root at which the promise fails. |
| Paths.RelPathUndoesAbsPath | core/src/raw/path.rs:26-83 | For every raw root and path, making the normal path absolute (rooted or not) and relative again gives it back, or "" if it is the root "/". |
| Paths.AbsPathComponents | core/src/raw/path.rs:26-50 | For every raw root and path, the absolute path has the root's components followed by the path's, no empty ones, and is a directory exactly if the path is one. |
| Paths.AbsPathInjective | core/src/raw/path.rs:26-38 | Under one root different normal paths get different absolute paths. |
| Paths.ParentThenBasename | core/src/raw/path.rs:150-211 | Parent followed by basename rebuilds the path. |
| Paths.ChainIsNames | core/src/raw/path.rs:179-211 | Climbing with `get_parent` meets the components one per step, and as many as there are. |
| Paths.LeadingSlashSameChain | core/src/raw/path.rs:150-211 | "/p" and "p" give the same chain of basenames. |
| Paths.JoinOfComponents | core/src/raw/path.rs:108-117 | Joining undoes splitting on strings without empty components. |
| PathCache.PathCacher.Get | core/src/raw/path_cache.rs:116-137 | With a sound cache, under any eviction and failure, `get` gives what folding the query over the names gives, or the error of the one service call that failed; it keeps the cache sound on every exit, asks at most once per path below the nearest cached ancestor (every path below it was not cached or was evicted during the call), and caches what it found. |
| PathCache.PathCacher.Climb | core/src/raw/path_cache.rs:123-135 | Climbing stops at the nearest ancestor that is cached, or at the root, with the paths in between. |
| PathCache.PathCacher.QueryDown | core/src/raw/path_cache.rs:143-156 | From the id of an ancestor, one query per path, to the uncached result or the error of the query that failed; what was found is cached unless evicted. |
| PathCache.PathCacher.EnsureDir | core/src/raw/path_cache.rs:159-198 | Returns the id the fold gives afterwards, or the error of the one service call that failed; creates only absent directories on the way, each once, and nothing else; keeps all earlier resolutions and entries; creates nothing if the directory is there; caches exactly the keys of the way, without a leading slash, unless evicted. |
| PathCache.KeysAbsoluteExactly | core/src/raw/path_cache.rs:162-173 | All keys `ensure_dir` visits are absolute if and only if the path has no components. |
| PathCache.PathCacher.EnsureOne | core/src/raw/path_cache.rs:179-195 | One round of `ensure_dir`: a missing directory is created, and an error is that of a failed call. |
| PathCache.EnsureAgain | core/src/raw/path_cache.rs:159-198 | Ensuring a directory that is there creates nothing, changes nothing in the service and gives its id, whatever was evicted. |
| PathCache.EnsureTwice | core/src/raw/path_cache.rs:159-198 | Two calls in a row ask for each directory at most once, only if it was missing, and give the same id. |
| PathCache.DirKeys | core/src/raw/path_cache.rs:162-173 | The keys `ensure_dir` visits are the directories of the path, top down. |
| PathCache.BothKeysSameId | core/src/raw/path_cache.rs:170-172 | The keys "a/b/" and "/a/b/" denote the same id. |
| PathCache.PathCacher.Insert | core/src/raw/path_cache.rs:93-106 | An entry that is there stays and otherwise the new one is kept, unless evicted; the cache remains sound exactly if what it keeps for the path is the path's id. |
| PathCache.PathCacher.Remove | core/src/raw/path_cache.rs:109-113 | Drops exactly the one key. |
| PathCache.SoundMonotone | core/src/raw/path_cache.rs:46-56 | A sound cache stays sound as the service gains entries. |
| PathCacheRuns.LockedRunsAreRight | core/src/raw/path_cache.rs:61-65 | With the lock, over every interleaving of any number of callers with evictions, failures, files that appear, callers that give up and their creations that land before the next caller gets in: the service only grows, no pair is created twice or was there before, equal directories get equal ids, every answer of `get`, also a negative one, was right when given and found ids stay right, the cache is sound. |
| PathCacheRuns.CallsFinish | core/src/raw/path_cache.rs:93-198 | In every reachable state with the lock free, a waiting caller that is let in and meets no failure comes to its end: `get` answers what resolution gives, `ensure_dir` leaves the directory there and answers its id, `insert` leaves an entry; the lock is free again. |
| PathCacheRuns.StepEnsureKeepsInv | core/src/raw/path_cache.rs:159-198 | Every small step of `ensure_dir` inside the lock keeps that. |
| PathCacheRuns.StepGetKeepsInv | core/src/raw/path_cache.rs:116-156 | Every small step of `get` inside the lock keeps that. |
| PathCacheRuns.UnlockedRaces | core/src/raw/path_cache.rs:84-90 | Without the lock: a concrete interleaving in which one pair is created twice and two callers hold different ids of one directory. |
| PathCacheRuns.LateCreationRaces | core/src/raw/path_cache.rs:159-198 | With the lock: a concrete run in which a creation outlives its caller, lands after the next caller's and duplicates it. |
| PathCacheRuns.NeverTwiceExactly | core/src/raw/path_cache.rs:84-90 | No run over any service creates a directory twice if and only if the lock is in use and creations without a caller land, if at all, before the next caller gets in. |
| FlatListing.FlatLister.Next | core/src/raw/oio/list/flat_list.rs:92-124 | The stack machine hands out the head of the pruned walk, in which a directory whose listing fails is missing with all below it; a failure is that of the last listing or fetch, and changes nothing to come. |
| FlatListing.Collect | core/src/raw/oio/list/flat_list.rs:92-124 | Without failures the lister gives exactly the recursive walk, reports no error, and terminates. |
| FlatListing.CollectRetrying | core/src/raw/oio/list/flat_list.rs:92-124 | A caller that calls again after failures gets exactly the pruned walk, and the whole walk if and only if no directory on the way fails to be listed; every error it sees is the service's. |
| FlatListing.WholeExactly | core/src/raw/oio/list/flat_list.rs:94-97 | The pruned walk is the whole walk if and only if none of the listings of the whole walk, in the order of the calls, fails. |
| FlatListing.RetryFindsNothing | core/src/raw/oio/list/flat_list.rs:94-102 | The pruned walk is empty, although there is always something, if and only if the first listing fails. |
| ImmutableIndex.ChildrenHierarchy | core/src/layers/immutable_index.rs:99-135 | The loop computes exactly the children of the path. |
| ImmutableIndex.InChildrenFlat | core/src/layers/immutable_index.rs:91-97 | The flat listing holds exactly the keys strictly below the path. |
| ImmutableIndex.ChildrenFlatCounts | core/src/layers/immutable_index.rs:91-97 | The flat listing holds each of these keys as often as the index does. |
| ImmutableIndex.ChildrenFlatConcat | core/src/layers/immutable_index.rs:91-97 | The flat listing keeps the order of the index. |
| ImmutableIndex.ChildShape | core/src/layers/immutable_index.rs:108-131 | A child is the part of the key up to the first slash after the path, or all of it. |
| ImmutableIndex.WalkOfIndex | core/src/layers/immutable_index.rs:172-185 | Walking the hierarchy from a directory terminates for every index and gives, each once, the directory, the keys below it and the directories on the way. |
| ImmutableIndex.PrunedWalkOfIndex | core/src/raw/oio/list/flat_list.rs:92-124 | Over an index some directories of which cannot be listed, a caller that calls again gets exactly the entries that are neither such a directory nor below one. |
| ImmutableIndex.WalkIsFlatListing | core/src/layers/immutable_index.rs:91-135 | What the walk reaches is the flat listing plus directories that lead to keys. |
| ImmutableIndex.WalkCompleteExactly | core/src/layers/immutable_index.rs:172-185 | The walk reaches all of the flat listing if and only if it does not start at the root or no key other than "/" begins with a slash. |
| ImmutableIndex.ListRecursively | core/src/layers/complete.rs:256-261 | `FlatLister` over hierarchical listings of a key set gives each entry below the directory exactly once. |
| ImmutableIndex.PrefixListing | core/src/layers/complete.rs:270-281 | For hierarchical listings of a key set and a path that is not a directory, the parent's entries that start with the path are the path's own listing, and the path if it is a key. |
| ImmutableIndex.PrefixWalk | core/src/layers/complete.rs:261-266 | The same for walks of these listings: exactly the keys of the path's flat listing, the directories that lead to these, and the path if it is a key. |
| ConcurrentLimit.PermitsConserved | core/src/layers/concurrent_limit.rs:94-168 | In every run of any number of single calls, writers, listers, deleters and retrying readers, available permits and those held by running calls and live objects, at most one each, add up to the configured number. |
| ConcurrentLimit.HoldsExactly | core/src/layers/concurrent_limit.rs:237-251 | In every run a client holds a permit, and then exactly one, exactly while a call of its is let through or an object it opened is alive: until it is dropped, or a read of a retrying reader fails. |
| ConcurrentLimit.CallOpens | core/src/layers/concurrent_limit.rs:104-116 | With a permit left, a call from rest gets to the service; success leaves an object that holds the permit, except for single calls, and failure gives it back. |
| ConcurrentLimit.CallUses | core/src/layers/concurrent_limit.rs:237-251 | A call on a stored object asks for no permit. |
| ConcurrentLimit.LetThroughExactly | core/src/layers/retry.rs:493-511 | A waiting client, such as a reader that reopens, holds no permit and is let through exactly if fewer others than the limit hold one; exactly then a blocking call does not panic. So even a limit of one cannot block a reader by itself. |
| ConcurrentLimit.SomeHolderIsNotWaiting | core/src/layers/concurrent_limit.rs:104-116 | While a client waits and no permit is left, another client holds one and is not waiting. |
| ConcurrentLimit.NoPermitLeaks | core/src/layers/concurrent_limit.rs:237-251 | Once no call runs and no object is alive all permits are back, whatever failed, panicked or was dropped before. |

## Left out

- The immutable index under `complete_list`: the index lists recursively by itself, so `FlatLister` and `PrefixLister` are not put over it; `ListRecursively`, `PrefixListing` and `PrefixWalk` state how they agree with its listings of the same keys.
- ConcurrentFutures.Futures.constructor: takes at most eight futures, because the form for more is `FuturesOrdered` of the futures crate.
- FlatListing.Collect: requires that directories listed below a directory are longer and bounded in length; for a service that lists directories in a cycle the source does not terminate. `ImmutableIndex.IndexTame` shows it for the index.
- PathCacheRuns.LockedRunsAreRight: requires that callers of `insert` give the id the path has, since the code keeps whatever it is given; `PathCache.PathCacher.Insert` states what a wrong id does. It also requires that a creation whose caller has left is over before the next caller gets in, which `NeverTwiceExactly` shows to be needed. Directories that someone else creates between the query and the creation are not covered by the lock and do not occur in these runs; files do.
- RetryRead.ReadToEnd: requires that a range of a checked and known size lies within the content; otherwise `CheckedEndMeansAll` shows that the end is never reported.
- ConcurrentLimit.SomeHolderIsNotWaiting: a task that holds one object and waits for another is two clients, so it does not exclude that one task blocks itself.
- Deletion of directories with cached descendants: the cache makes no promise about it, and the model's service only gains entries.
- 64-bit offsets: only the subtraction in `BytesRange::advance` is modelled with its wrap-around, and shown not to wrap.
- Backoff delays, jitter, notification, error texts and contexts: no bearing on the properties.
- The blocking variants of the readers and of the layers other than retry and the concurrency limit: the same code without futures.
- `complete_stat`, `complete_create_dir`, capability checks and the observability layers: branches that forward, easy members only.
- Services, bindings, HTTP utilities, option builders and timeouts: no run-level property of their own; a timeout above a retry layer appears as a dropped future.
