/**
 Reading through retries: `RetryReader` under `RetryWrapper`
 (core/src/layers/retry.rs), over `CompleteReader`
 (core/src/layers/complete.rs) or directly over the service.

 A connection is known by the bytes it still has to deliver. Chunk sizes, read
 errors, errors of opening and what an opened connection delivers are the
 environment's choice at every attempt.
 */
module RetryRead {
  import opened Common
  import opened Retry

  const U64: nat := 0x1_0000_0000_0000_0000

  /** 64-bit subtraction as it is compiled for release builds. A debug build
      panics where this wraps. */
  function WrappingSub(a: nat, b: nat): nat {
    if b <= a then a - b else (a - b) % U64
  }

  datatype Range = Range(offset: nat, size: Option<nat>) {
    function Advance(n: nat): Range {
      Range(offset + n, match size case None => None case Some(s) => Some(WrappingSub(s, n)))
    }
  }

  /** The part of the content a range asks for. */
  function Slice(content: seq<Byte>, r: Range): seq<Byte> {
    var from := if r.offset <= |content| then r.offset else |content|;
    var rest := content[from..];
    match r.size
    case None => rest
    case Some(n) => if n <= |rest| then rest[..n] else rest
  }

  /** A (possibly checked) reader: what the service will still send, the size to
      check against and the bytes counted so far. */
  datatype Connection = Connection(rest: seq<Byte>, size: Option<nat>, read: nat)

  /** The service at one attempt: what a connection opened now delivers in all,
      and how much the next chunk holds. */
  datatype Answer = Answer(open: Range -> Result<seq<Byte>>, chunk: Result<nat>)

  /** One read of the service: an empty buffer only at the end of its data. */
  function Take(rest: seq<Byte>, n: nat): nat {
    if rest == [] then 0 else if n == 0 then 1 else if n <= |rest| then n else |rest|
  }

  function Check(c: Connection): Result<()> {
    match c.size
    case None => Ok(())
    case Some(size) =>
      if c.read == size then Ok(())
      else if c.read < size then Err(Error(TooLittleData, Permanent))
      else Err(Error(TooMuchData, Permanent))
  }

  function ReadConnection(c: Connection, chunk: Result<nat>): (Connection, Result<seq<Byte>>) {
    match chunk
    case Err(e) => (c, Err(e))
    case Ok(n) =>
      var k := Take(c.rest, n);
      var c' := c.(rest := c.rest[k..]);
      if k == 0 then (c', match Check(c) case Ok(_) => Ok([]) case Err(e) => Err(e))
      else (c'.(read := c.read + k), Ok(c.rest[..k]))
  }

  /** `checked` tells whether a CompleteReader sits below. */
  datatype Reader = Reader(checked: bool, reader: Option<Connection>, range: Range)

  function Open(st: Reader, data: seq<Byte>): Connection {
    Connection(data, if st.checked then st.range.size else None, 0)
  }

  /** The reader to use now, reopened at the current range if there is none. */
  function Connect(st: Reader, a: Answer): Result<Connection> {
    match st.reader
    case Some(c) => Ok(c)
    case None =>
      match a.open(st.range)
      case Ok(data) => Ok(Open(st, data))
      case Err(e) => Err(e)
  }

  /** One `RetryReader::read`: a reader that failed is dropped, a buffer that
      is returned advances the range. */
  function ReadOnce(st: Reader, q: (), a: Answer): (Reader, Result<seq<Byte>>) {
    match Connect(st, a)
    case Err(e) => (st, Err(e))
    case Ok(c) =>
      var (c', r) := ReadConnection(c, a.chunk);
      match r
      case Err(e) => (st.(reader := None), Err(e))
      case Ok(buf) => (st.(reader := Some(c'), range := st.range.Advance(|buf|)), Ok(buf))
  }

  class RetryReader {
    const checked: bool
    var reader: Option<Connection>
    var range: Range

    ghost function Abs(): Reader
      reads this
    {
      Reader(checked, reader, range)
    }

    constructor (checked: bool, range: Range, data: seq<Byte>)
      ensures Abs() == First(checked, range, data)
    {
      this.checked, this.range := checked, range;
      reader := Some(Connection(data, if checked then range.size else None, 0));
    }

    method Read(a: Answer) returns (r: Result<seq<Byte>>)
      modifies this
      ensures (Abs(), r) == ReadOnce(old(Abs()), (), a)
    {
      while true
        invariant Abs() == old(Abs()) ||
                  (old(reader) == None && a.open(range).Ok? && range == old(range) &&
                   reader == Some(Open(old(Abs()), a.open(range).value)))
        decreases reader == None
      {
        var taken := reader;
        reader := None;
        match taken {
          case None =>
            match a.open(range) {
              case Err(e) => return Err(e);
              case Ok(data) =>
                reader := Some(Connection(data, if checked then range.size else None, 0));
            }
          case Some(c) =>
            var (c', buf) := ReadConnection(c, a.chunk);
            match buf {
              case Err(e) => return Err(e);
              case Ok(bs) =>
                reader := Some(c');
                range := range.Advance(|bs|);
                return Ok(bs);
            }
        }
      }
    }
  }

  /** The reader `RetryAccessor::read` hands out once opening succeeded. */
  function First(checked: bool, range: Range, data: seq<Byte>): Reader {
    Reader(checked, Some(Connection(data, if checked then range.size else None, 0)), range)
  }

  // ---------------------------------------------------------------------
  // What one attempt answers.

  /** The connection an attempt uses: the one there is, or one opened now. */
  ghost predicate Uses(st: Reader, a: Answer, c: Connection) {
    match st.reader
    case Some(c0) => c == c0
    case None =>
      && a.open(st.range).Ok?
      && c == Connection(a.open(st.range).value, if st.checked then st.range.size else None, 0)
  }

  /** Where no connection is there and none can be opened, the attempt fails
      with the service's error and changes nothing. */
  lemma OpenErrorIsTold(st: Reader, a: Answer)
    requires st.reader.None? && a.open(st.range).Err?
    ensures ReadOnce(st, (), a) == (st, Err(a.open(st.range).error))
  {
  }

  /** An error of an attempt that has a connection is the service's own, or at
      the end of the data that of the size check: too little exactly if fewer bytes
      were read than the size, too much exactly if more. It drops the connection and
      keeps the range. Otherwise the attempt delivers the next bytes, none exactly
      at the end. */
  lemma ReadOnceExactly(st: Reader, a: Answer, c: Connection)
    requires Uses(st, a, c)
    ensures
      var (st', r) := ReadOnce(st, (), a);
      && (r.Err? ==> st' == st.(reader := None))
      && (a.chunk.Err? ==> r == Err(a.chunk.error))
      && (a.chunk.Ok? && c.rest == [] ==>
            && (r == Ok([]) <==> c.size.None? || c.read == c.size.value)
            && (r == Err(Error(TooLittleData, Permanent)) <==> c.size.Some? && c.read < c.size.value)
            && (r == Err(Error(TooMuchData, Permanent)) <==> c.size.Some? && c.read > c.size.value))
      && (a.chunk.Ok? && c.rest != [] ==>
            && r.Ok? && r.value != [] && r.value <= c.rest
            && (0 < a.chunk.value <= |c.rest| ==> |r.value| == a.chunk.value))
      && (r.Ok? ==>
            && |r.value| <= |c.rest|
            && st' == Reader(st.checked, Some(Connection(c.rest[|r.value|..], c.size, c.read + |r.value|)), st.range.Advance(|r.value|)))
  {
    assert Connect(st, a) == Ok(c);
    hide Connect, Uses;
    if a.chunk.Ok? && c.rest == [] {
      assert c.rest[0..] == c.rest;
    }
  }

  // ---------------------------------------------------------------------

  /** Every connection delivers a prefix of what was asked: it may break off
      early without an error, but sends no wrong byte and none too many. */
  ghost predicate Truthful(content: seq<Byte>, open: Range -> Result<seq<Byte>>) {
    forall r {:trigger open(r)} :: open(r).Ok? ==> open(r).value <= Slice(content, r)
  }

  /** ... and does not break off early. */
  ghost predicate Thorough(content: seq<Byte>, open: Range -> Result<seq<Byte>>) {
    forall r {:trigger open(r)} :: open(r).Ok? ==> open(r).value == Slice(content, r)
  }

  ghost predicate TruthfulRun(content: seq<Byte>, run: seq<Request<(), Answer>>) {
    forall r <- run, k: nat {:trigger r.env.answers(k)} :: Truthful(content, r.env.answers(k).open)
  }

  ghost predicate ThoroughRun(content: seq<Byte>, run: seq<Request<(), Answer>>) {
    forall r <- run, k: nat {:trigger r.env.answers(k)} :: Thorough(content, r.env.answers(k).open)
  }

  /** All buffers the caller got, joined. */
  function Delivered(maxTimes: nat, st: Reader, run: seq<Request<(), Answer>>): seq<Byte> {
    if run == [] then []
    else
      var before := Delivered(maxTimes, st, run[..|run| - 1]);
      match LastReply(ReadOnce, maxTimes, Wrapper(true, st), run)
      case Done(Ok(buf)) => before + buf
      case _ => before
  }

  /** Where the reader stands after delivering `done` of the range r0. */
  ghost predicate Tracks(content: seq<Byte>, r0: Range, st: Reader, done: seq<Byte>) {
    && done <= Slice(content, r0)
    && st.range.offset == r0.offset + |done|
    && (st.range.size.Some? <==> r0.size.Some?)
    && (r0.size.Some? ==> st.range.size.value == r0.size.value - |done|)
    && (st.reader.Some? ==>
          var c := st.reader.value;
          && c.rest <= Slice(content, st.range)
          && (c.size.Some? <==> st.checked && r0.size.Some?)
          && (c.size.Some? ==> st.range.size.value == c.size.value - c.read))
  }

  /** A range asks for the bytes from its offset on, as many as its size says and
      the content has. */
  lemma SliceExactly(content: seq<Byte>, r: Range)
    ensures
      var there := if r.offset <= |content| then |content| - r.offset else 0;
      && |Slice(content, r)| == (if r.size.Some? && r.size.value <= there then r.size.value else there)
      && forall i :: 0 <= i < |Slice(content, r)| ==> Slice(content, r)[i] == content[r.offset + i]
  {
  }

  lemma SliceAdvance(content: seq<Byte>, r: Range, n: nat)
    requires n <= |Slice(content, r)|
    ensures Slice(content, r.Advance(n)) == Slice(content, r)[n..]
    ensures r.size.Some? ==> r.Advance(n).size == Some(r.size.value - n)
  {
  }

  lemma SliceFrom(content: seq<Byte>, r0: Range, r: Range, n: nat)
    requires n <= |Slice(content, r0)| && r.offset == r0.offset + n
    requires r.size.Some? <==> r0.size.Some?
    requires r0.size.Some? ==> r.size.value == r0.size.value - n
    ensures Slice(content, r) == Slice(content, r0)[n..]
  {
    SliceAdvance(content, r0, n);
    assert r == r0.Advance(n);
  }

  /** The next k bytes of a connection are the next k bytes of the range. */
  lemma NextBytes(content: seq<Byte>, r0: Range, r: Range, done: seq<Byte>, rest: seq<Byte>, k: nat)
    requires done <= Slice(content, r0) && r.offset == r0.offset + |done|
    requires r.size.Some? <==> r0.size.Some?
    requires r0.size.Some? ==> r.size.value == r0.size.value - |done|
    requires rest <= Slice(content, r) && k <= |rest|
    ensures done + rest[..k] <= Slice(content, r0)
    ensures rest[k..] <= Slice(content, r.Advance(k))
    ensures r.size.Some? ==> r.Advance(k).size == Some(r.size.value - k)
  {
    SliceFrom(content, r0, r, |done|);
    SliceAdvance(content, r, k);
    var whole := Slice(content, r0);
    assert whole == done + whole[|done|..];
  }

  /** One attempt delivers the next bytes of the range or changes nothing that counts. */
  lemma ReadOnceTracks(content: seq<Byte>, r0: Range, st: Reader, done: seq<Byte>, a: Answer)
    requires Tracks(content, r0, st, done) && Truthful(content, a.open)
    ensures
      var (st', r) := ReadOnce(st, (), a);
      && st'.checked == st.checked
      && Tracks(content, r0, st', if r.Ok? then done + r.value else done)
      && (r == Ok([]) && st.checked && r0.size.Some? ==> |done| == r0.size.value)
  {
    var linked := Connect(st, a);
    if linked.Ok? && a.chunk.Ok? {
      var c := linked.value;
      NextBytes(content, r0, st.range, done, c.rest, Take(c.rest, a.chunk.value));
    }
  }

  /** Over thorough connections the reader also knows all that is left. */
  ghost predicate KnowsRest(content: seq<Byte>, st: Reader) {
    st.reader.Some? ==> st.reader.value.rest == Slice(content, st.range)
  }

  lemma ReadOnceKnowsRest(content: seq<Byte>, r0: Range, st: Reader, done: seq<Byte>, a: Answer)
    requires Tracks(content, r0, st, done) && KnowsRest(content, st) && Thorough(content, a.open)
    ensures
      var (st', r) := ReadOnce(st, (), a);
      && KnowsRest(content, st')
      && (r == Ok([]) ==> done == Slice(content, r0))
  {
    SliceFrom(content, r0, st.range, |done|);
    var linked := Connect(st, a);
    if linked.Ok? && a.chunk.Ok? {
      var c := linked.value;
      assert c.rest == Slice(content, st.range);
      SliceAdvance(content, st.range, Take(c.rest, a.chunk.value));
    }
  }

  /** What one whole wrapper call does to a tracked reader. */
  lemma {:induction false} LoopTracks(content: seq<Byte>, r0: Range, st: Reader, done: seq<Byte>,
                                      answers: nat -> Answer, k: nat, retries: nat, thorough: bool)
    requires Tracks(content, r0, st, done)
    requires forall j: nat {:trigger answers(j)} :: Truthful(content, answers(j).open)
    requires thorough ==> KnowsRest(content, st)
    requires thorough ==> forall j: nat {:trigger answers(j)} :: Thorough(content, answers(j).open)
    ensures
      var o := Loop(ReadOnce, st, (), answers, k, retries);
      && o.state.checked == st.checked
      && Tracks(content, r0, o.state, if o.result.Ok? then done + o.result.value else done)
      && (thorough ==> KnowsRest(content, o.state))
      && (o.result == Ok([]) && st.checked && r0.size.Some? ==> |done| == r0.size.value)
      && (o.result == Ok([]) && thorough ==> done == Slice(content, r0))
    decreases retries
  {
    ReadOnceTracks(content, r0, st, done, answers(k));
    if thorough {
      ReadOnceKnowsRest(content, r0, st, done, answers(k));
    }
    var (st', r) := ReadOnce(st, (), answers(k));
    if Again(r, retries) {
      LoopTracks(content, r0, st', done, answers, k + 1, retries - 1, thorough);
    }
  }

  /** The joined buffers of any run are a prefix of the requested range, and
      while the reader is there its range starts right after them. */
  lemma {:induction false} RunsTrack(content: seq<Byte>, maxTimes: nat, st: Reader, run: seq<Request<(), Answer>>, thorough: bool)
    requires Tracks(content, st.range, st, []) && TruthfulRun(content, run)
    requires thorough ==> KnowsRest(content, st) && ThoroughRun(content, run)
    ensures
      var w := Final(ReadOnce, maxTimes, Wrapper(true, st), run);
      var done := Delivered(maxTimes, st, run);
      && done <= Slice(content, st.range)
      && (w.present ==>
            && w.state.checked == st.checked
            && Tracks(content, st.range, w.state, done)
            && (thorough ==> KnowsRest(content, w.state)))
  {
    if run != [] {
      var n := |run| - 1;
      RunsTrack(content, maxTimes, st, run[..n], thorough);
      var w := Final(ReadOnce, maxTimes, Wrapper(true, st), run[..n]);
      assert run[n] in run && run[n].q == ();
      if w.present {
        var done := Delivered(maxTimes, st, run[..n]);
        LoopTracks(content, st.range, w.state, done, run[n].env.answers, 0, maxTimes, thorough);
        var r := Loop(ReadOnce, w.state, (), run[n].env.answers, 0, maxTimes).result;
        assert LastReply(ReadOnce, maxTimes, Wrapper(true, st), run).Done? ==>
                 LastReply(ReadOnce, maxTimes, Wrapper(true, st), run).result == Persisted(r);
      }
    }
  }

  /** No byte is lost or duplicated: over connections that may break off early,
      fail at any read and fail to reopen, whatever the chunk sizes and however
      many calls gave up, the caller holds a prefix of the range it asked for. */
  lemma NoByteLostOrDuplicated(content: seq<Byte>, maxTimes: nat, checked: bool, range: Range, data: seq<Byte>,
                               run: seq<Request<(), Answer>>)
    requires data <= Slice(content, range) && TruthfulRun(content, run)
    ensures Delivered(maxTimes, First(checked, range, data), run) <= Slice(content, range)
  {
    RunsTrack(content, maxTimes, First(checked, range, data), run, false);
  }

  /** What an empty buffer at the end of a run tells the caller. */
  lemma EndOfRun(content: seq<Byte>, maxTimes: nat, st: Reader, run: seq<Request<(), Answer>>, thorough: bool)
    requires Tracks(content, st.range, st, []) && TruthfulRun(content, run) && run != []
    requires thorough ==> KnowsRest(content, st) && ThoroughRun(content, run)
    requires LastReply(ReadOnce, maxTimes, Wrapper(true, st), run) == Done(Ok([]))
    ensures
      var done := Delivered(maxTimes, st, run);
      && done <= Slice(content, st.range)
      && (st.checked && st.range.size.Some? ==> |done| == st.range.size.value)
      && (thorough ==> done == Slice(content, st.range))
  {
    var n := |run| - 1;
    RunsTrack(content, maxTimes, st, run[..n], thorough);
    var w, done := Final(ReadOnce, maxTimes, Wrapper(true, st), run[..n]), Delivered(maxTimes, st, run[..n]);
    assert run[n] in run && run[n].q == ();
    assert w.present;
    LoopTracks(content, st.range, w.state, done, run[n].env.answers, 0, maxTimes, thorough);
    assert Delivered(maxTimes, st, run) == done + [] == done;
  }

  /** If no connection breaks off early, an empty buffer means that all of the
      range was delivered. */
  lemma EndMeansAll(content: seq<Byte>, maxTimes: nat, checked: bool, range: Range, run: seq<Request<(), Answer>>)
    requires ThoroughRun(content, run) && run != []
    requires LastReply(ReadOnce, maxTimes, Wrapper(true, First(checked, range, Slice(content, range))), run) == Done(Ok([]))
    ensures Delivered(maxTimes, First(checked, range, Slice(content, range)), run) == Slice(content, range)
  {
    assert TruthfulRun(content, run);
    EndOfRun(content, maxTimes, First(checked, range, Slice(content, range)), run, true);
  }

  /** With the size check below and a known size, an empty buffer means that
      exactly the size first requested was delivered, over any number of
      reopens, even if connections break off early without saying so. */
  lemma CheckedEndMeansAll(content: seq<Byte>, maxTimes: nat, range: Range, data: seq<Byte>, run: seq<Request<(), Answer>>)
    requires range.size.Some? && data <= Slice(content, range) && TruthfulRun(content, run) && run != []
    requires LastReply(ReadOnce, maxTimes, Wrapper(true, First(true, range, data)), run) == Done(Ok([]))
    ensures |Delivered(maxTimes, First(true, range, data), run)| == range.size.value
    ensures Delivered(maxTimes, First(true, range, data), run) == Slice(content, range)
  {
    EndOfRun(content, maxTimes, First(true, range, data), run, false);
  }

  // The size check needs no truth from the service, only that no connection
  // sends more than it was asked for.

  ghost predicate Modest(open: Range -> Result<seq<Byte>>) {
    forall r {:trigger open(r)} :: open(r).Ok? && r.size.Some? ==> |open(r).value| <= r.size.value
  }

  ghost predicate ModestRun(run: seq<Request<(), Answer>>) {
    forall r <- run, k: nat {:trigger r.env.answers(k)} :: Modest(r.env.answers(k).open)
  }

  /** A checked reader after n of `size` bytes. */
  ghost predicate Counts(size: nat, st: Reader, n: nat) {
    && st.checked && n <= size && st.range.size == Some(size - n)
    && (st.reader.Some? ==>
          var c := st.reader.value;
          && |c.rest| <= size - n
          && c.size.Some? && size - n == c.size.value - c.read)
  }

  lemma {:induction false} LoopCounts(size: nat, st: Reader, n: nat, answers: nat -> Answer, k: nat, retries: nat)
    requires Counts(size, st, n)
    requires forall j: nat {:trigger answers(j)} :: Modest(answers(j).open)
    ensures
      var o := Loop(ReadOnce, st, (), answers, k, retries);
      && Counts(size, o.state, if o.result.Ok? then n + |o.result.value| else n)
      && (o.result == Ok([]) ==> n == size)
    decreases retries
  {
    assert Modest(answers(k).open);
    var (st', r) := ReadOnce(st, (), answers(k));
    if Again(r, retries) {
      LoopCounts(size, st', n, answers, k + 1, retries - 1);
    }
  }

  lemma CallCounts(size: nat, maxTimes: nat, st: Reader, n: nat, env: Env<Answer>)
    requires Counts(size, st, n) && forall j: nat {:trigger env.answers(j)} :: Modest(env.answers(j).open)
    ensures
      var (w, reply) := Call(ReadOnce, maxTimes, Wrapper(true, st), (), env);
      var now := if reply.Done? && reply.result.Ok? then n + |reply.result.value| else n;
      && (w.present ==> Counts(size, w.state, now))
      && (reply == Done(Ok([])) ==> now == size)
  {
    LoopCounts(size, st, n, env.answers, 0, maxTimes);
    hide Counts, ReadOnce, Loop, After;
  }

  lemma {:induction false} RunsCount(maxTimes: nat, st: Reader, run: seq<Request<(), Answer>>)
    requires st.range.size.Some? && Counts(st.range.size.value, st, 0) && ModestRun(run)
    ensures
      var w := Final(ReadOnce, maxTimes, Wrapper(true, st), run);
      && (w.present ==> Counts(st.range.size.value, w.state, |Delivered(maxTimes, st, run)|))
      && (run != [] && LastReply(ReadOnce, maxTimes, Wrapper(true, st), run) == Done(Ok([])) ==>
            |Delivered(maxTimes, st, run)| == st.range.size.value)
  {
    if run != [] {
      var n := |run| - 1;
      RunsCount(maxTimes, st, run[..n]);
      var w, done := Final(ReadOnce, maxTimes, Wrapper(true, st), run[..n]), Delivered(maxTimes, st, run[..n]);
      assert run[n] in run && run[n].q == ();
      if w.present {
        CallCounts(st.range.size.value, maxTimes, w.state, |done|, run[n].env);
        assert w == Wrapper(true, w.state);
      } else {
        assert Call(ReadOnce, maxTimes, w, (), run[n].env).0 == w && !Call(ReadOnce, maxTimes, w, (), run[n].env).1.Dropped?;
      }
      hide Counts, ReadOnce, Call;
    }
  }

  /** A successful empty read of a checked reader says that the bytes delivered
      over all reopens number exactly the size first requested, whatever bytes
      the service sends and wherever its connections break off. */
  lemma CheckedEndCounts(maxTimes: nat, range: Range, data: seq<Byte>, run: seq<Request<(), Answer>>)
    requires range.size.Some? && |data| <= range.size.value && ModestRun(run) && run != []
    requires LastReply(ReadOnce, maxTimes, Wrapper(true, First(true, range, data)), run) == Done(Ok([]))
    ensures |Delivered(maxTimes, First(true, range, data), run)| == range.size.value
  {
    RunsCount(maxTimes, First(true, range, data), run);
  }

  /** A run over truthful connections, the first of which delivers `data`, that
      ends in an empty buffer although not all of the range was delivered. */
  ghost predicate Misleads(content: seq<Byte>, maxTimes: nat, checked: bool, range: Range, data: seq<Byte>,
                           run: seq<Request<(), Answer>>)
  {
    && data <= Slice(content, range) && TruthfulRun(content, run) && run != []
    && LastReply(ReadOnce, maxTimes, Wrapper(true, First(checked, range, data)), run) == Done(Ok([]))
    && Delivered(maxTimes, First(checked, range, data), run) != Slice(content, range)
  }

  /** Without the check, or with a size that is not known, a first connection
      that breaks off at once is taken for the whole range. */
  lemma UncheckedEndCanLie(content: seq<Byte>, maxTimes: nat, checked: bool, range: Range) returns (run: seq<Request<(), Answer>>)
    requires !(checked && range.size.Some?) && Slice(content, range) != []
    ensures Misleads(content, maxTimes, checked, range, [], run)
  {
    var refuse: Range -> Result<seq<Byte>> := r => Err(Error(Backend(0), Permanent));
    var env := Env((k: nat) => Answer(refuse, Ok(1)), None, false);
    run := [Request((), env)];
    var st := First(checked, range, []);
    hide Slice;
    assert run[..0] == [];
    assert Final(ReadOnce, maxTimes, Wrapper(true, st), run[..0]) == Wrapper(true, st);
    assert ReadOnce(st, (), env.answers(0)).1 == Ok([]);
    assert Delivered(maxTimes, st, run[..0]) == [];
  }

  /** An empty buffer is to be believed, in every run over truthful connections,
      exactly if the size is checked and known or there is nothing to deliver. */
  lemma EndIsBelievableExactly(content: seq<Byte>, maxTimes: nat, checked: bool, range: Range)
    ensures (forall data, run :: !Misleads(content, maxTimes, checked, range, data, run))
       <==> (checked && range.size.Some?) || Slice(content, range) == []
  {
    if !(checked && range.size.Some?) && Slice(content, range) != [] {
      var run := UncheckedEndCanLie(content, maxTimes, checked, range);
    } else {
      forall data, run
        ensures !Misleads(content, maxTimes, checked, range, data, run)
      {
        if Misleads(content, maxTimes, checked, range, data, run) {
          EndOfRun(content, maxTimes, First(checked, range, data), run, false);
          assert false;
        }
      }
    }
  }

  // ---------------------------------------------------------------------
  // Reading to the end.

  /** The service answers this attempt without an error. */
  ghost predicate Kind(a: Answer) { a.chunk.Ok? && forall r {:trigger a.open(r)} :: a.open(r).Ok? }

  /** A kind attempt succeeds, the check at the end included, unless it uses a
      connection that broke off early: then it delivers bytes of it or, with the
      check, drops it. */
  lemma KindReads(content: seq<Byte>, r0: Range, st: Reader, done: seq<Byte>, a: Answer)
    requires Tracks(content, r0, st, done) && Thorough(content, a.open) && Kind(a)
    requires st.checked && r0.size.Some? ==> |Slice(content, r0)| == r0.size.value
    requires KnowsRest(content, st) || (st.checked && r0.size.Some?)
    ensures
      var (st', r) := ReadOnce(st, (), a);
      && (KnowsRest(content, st) ==> r.Ok? && KnowsRest(content, st'))
      && (r == Ok([]) ==> done == Slice(content, r0))
      && (r.Err? ==> KnowsRest(content, st') && !r.error.IsTemporary())
  {
    SliceFrom(content, r0, st.range, |done|);
    assert a.open(st.range).Ok?;
    var c := Connect(st, a).value;
    if KnowsRest(content, st) {
      assert c.rest == Slice(content, st.range);
      ReadOnceKnowsRest(content, r0, st, done, a);
    }
  }

  /** An attempt at which the service fails with temporary errors only. */
  ghost predicate Shaky(a: Answer) {
    && a.chunk.Err? && a.chunk.error.IsTemporary()
    && forall r {:trigger a.open(r)} :: a.open(r).Err? ==> a.open(r).error.IsTemporary()
  }

  lemma ShakyFails(st: Reader, a: Answer)
    requires Shaky(a)
    ensures
      var (st', r) := ReadOnce(st, (), a);
      r.Err? && r.error.IsTemporary() && st' == st.(reader := None)
  {
  }

  lemma {:induction false} ShakyAfter(st: Reader, answers: nat -> Answer, k: nat, n: nat)
    requires forall j: nat {:trigger answers(j)} :: k <= j < k + n ==> Shaky(answers(j))
    ensures After(ReadOnce, st, (), answers, k, n) == if n == 0 then st else st.(reader := None)
    decreases n
  {
    if n > 0 {
      ShakyFails(st, answers(k));
      ShakyAfter(st.(reader := None), answers, k + 1, n - 1);
      hide ReadOnce;
    }
  }

  /** A read is retried: if the service fails with temporary errors at first and
      then not, within `max_times` + 1 attempts, the call gives the next bytes, and
      none exactly if all were delivered. */
  lemma ReadIsRetried(content: seq<Byte>, r0: Range, st: Reader, done: seq<Byte>, env: Env<Answer>, maxTimes: nat, n: nat)
    requires Tracks(content, r0, st, done) && KnowsRest(content, st)
    requires st.checked && r0.size.Some? ==> |Slice(content, r0)| == r0.size.value
    requires n <= maxTimes && (env.direct || env.cut.None?)
    requires forall j: nat {:trigger env.answers(j)} :: j < n ==> Shaky(env.answers(j))
    requires Kind(env.answers(n)) && Thorough(content, env.answers(n).open)
    ensures
      var reply := Call(ReadOnce, maxTimes, Wrapper(true, st), (), env).1;
      && reply.Done? && reply.result.Ok?
      && done + reply.result.value <= Slice(content, r0)
      && (reply.result.value == [] <==> done == Slice(content, r0))
  {
    forall j: nat | j < n
      ensures ResultAt(ReadOnce, st, (), env.answers, 0, j).Err? && ResultAt(ReadOnce, st, (), env.answers, 0, j).error.IsTemporary()
    {
      ShakyFails(After(ReadOnce, st, (), env.answers, 0, j), env.answers(j));
    }
    ShakyAfter(st, env.answers, 0, n);
    var st1, a := After(ReadOnce, st, (), env.answers, 0, n), env.answers(n);
    KindReads(content, r0, st1, done, a);
    ReadOnceTracks(content, r0, st1, done, a);
    assert ResultAt(ReadOnce, st, (), env.answers, 0, n) == ReadOnce(st1, (), a).1;
    FirstDecides(ReadOnce, st, (), env.answers, maxTimes, n);
    NoneLeft(content, r0, st1, done, a);
    hide ReadOnce, Loop, After, ResultAt;
  }

  lemma NoneLeft(content: seq<Byte>, r0: Range, st: Reader, done: seq<Byte>, a: Answer)
    requires Tracks(content, r0, st, done) && Truthful(content, a.open)
    ensures done == Slice(content, r0) && ReadOnce(st, (), a).1.Ok? ==> ReadOnce(st, (), a).1.value == []
  {
    ReadOnceTracks(content, r0, st, done, a);
  }

  /** What is known of the connections of a caller that reads to the end. With
      the size checked and known they may break off early, otherwise not. */
  ghost predicate Dependable(content: seq<Byte>, lenient: bool, open: Range -> Result<seq<Byte>>) {
    if lenient then Truthful(content, open) else Thorough(content, open)
  }

  /** One call of such a caller; `late` tells that there are no failures any more. */
  lemma CallReads(content: seq<Byte>, r0: Range, st: Reader, done: seq<Byte>, answers: nat -> Answer, maxTimes: nat, late: bool)
    requires Tracks(content, r0, st, done)
    requires st.checked && r0.size.Some? ==> |Slice(content, r0)| == r0.size.value
    requires forall j: nat {:trigger answers(j)} :: Dependable(content, st.checked && r0.size.Some?, answers(j).open)
    requires KnowsRest(content, st) || (st.checked && r0.size.Some?)
    requires late ==> forall j: nat {:trigger answers(j)} :: Kind(answers(j)) && Thorough(content, answers(j).open)
    ensures
      var o := Loop(ReadOnce, st, (), answers, 0, maxTimes);
      && o.state.checked == st.checked
      && Tracks(content, r0, o.state, if o.result.Ok? then done + o.result.value else done)
      && (KnowsRest(content, o.state) || (st.checked && r0.size.Some?))
      && (o.result == Ok([]) ==> done == Slice(content, r0))
      && (late && KnowsRest(content, st) ==> o.result.Ok? && KnowsRest(content, o.state))
      && (late && o.result.Err? ==> KnowsRest(content, o.state))
  {
    var lenient := st.checked && r0.size.Some?;
    assert forall j: nat {:trigger answers(j)} :: Dependable(content, lenient, answers(j).open) ==> Truthful(content, answers(j).open);
    LoopTracks(content, r0, st, done, answers, 0, maxTimes, !lenient);
    if late {
      KindReads(content, r0, st, done, answers(0));
    }
    hide Tracks, KnowsRest, Slice, ReadOnce, Thorough, Truthful;
  }

  /** A caller that reads until it gets an empty buffer, calling again after
      every failure, ends up with exactly the range it asked for, for every
      pattern of chunk sizes and every finite pattern of failures. With the size
      checked and known, connections that break off early without saying so are
      among these failures. */
  method ReadToEnd(ghost content: seq<Byte>, maxTimes: nat, checked: bool, range: Range, first: seq<Byte>,
                   calls: nat -> Env<Answer>, ghost patience: nat)
    returns (out: seq<Byte>)
    requires if checked && range.size.Some? then first <= Slice(content, range) else first == Slice(content, range)
    requires checked && range.size.Some? ==> |Slice(content, range)| == range.size.value
    requires forall c: nat {:trigger calls(c)} :: calls(c).cut == None && !calls(c).direct
    requires forall c: nat, k: nat {:trigger calls(c).answers(k)} ::
               Dependable(content, checked && range.size.Some?, calls(c).answers(k).open)
    requires forall c: nat, k: nat {:trigger calls(c).answers(k)} :: c >= patience ==>
               Kind(calls(c).answers(k)) && Thorough(content, calls(c).answers(k).open)
    ensures out == Slice(content, range)
  {
    var wrapper := new RetryWrapper<Reader, (), Answer, seq<Byte>>(ReadOnce, maxTimes, First(checked, range, first));
    out := [];
    var c: nat := 0;
    var done := false;
    while !done
      invariant wrapper.attempt == ReadOnce && wrapper.maxTimes == maxTimes && wrapper.inner.Some?
      invariant wrapper.inner.value.checked == checked
      invariant Tracks(content, range, wrapper.inner.value, out)
      invariant KnowsRest(content, wrapper.inner.value) || (checked && range.size.Some?)
      invariant done ==> out == Slice(content, range)
      decreases !done,
                |Slice(content, range)| - |out| + (if c < patience then patience - c else 0),
                !KnowsRest(content, wrapper.inner.value)
    {
      CallReads(content, range, wrapper.inner.value, out, calls(c).answers, maxTimes, c >= patience);
      hide Tracks, KnowsRest, Slice, ReadOnce;
      var reply := wrapper.Invoke((), calls(c));
      c := c + 1;
      match reply {
        case Done(Ok(buf)) =>
          out := out + buf;
          done := buf == [];
        case _ =>
      }
    }
  }
}
