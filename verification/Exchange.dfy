/** The worker exchange loop of src/witnessgap/workspace100/worker.py:702-897:
    three non-blocking pipes, two bounded buffers, a deadline and a sticky
    overflow flag, against an arbitrary environment. */
module Exchange {
  import opened Model

  const MAX_REQUEST_BYTES := 0x40000
  const MAX_CLAIM_BYTES := 0x4000
  const MAX_STDERR_BYTES := 0x10000
  const IO_CHUNK_BYTES := 0x4000

  datatype Limits = Limits(stdoutBytes: nat, stderrBytes: nat) {
    predicate Valid() {
      1 <= stdoutBytes <= MAX_CLAIM_BYTES && stderrBytes <= MAX_STDERR_BYTES
    }
  }

  // ---------- the environment ----------

  /** Everything the child ever writes before closing each stream. */
  datatype Child = Child(out: Bytes, err: Bytes)

  /** How the kernel answers `os.write`: it takes at most the bytes offered. */
  datatype WriteAnswer = Accepts(n: nat) | WriteBlocked | BrokenPipe | WriteFailed

  /** How the kernel answers `os.read`: it hands over between one and
      `IO_CHUNK_BYTES` of the bytes that are left, and nothing only at the end. */
  datatype ReadAnswer = Delivers(n: nat) | ReadBlocked | ReadFailed

  datatype Event = StdinReady(write: WriteAnswer) | StdoutReady(read: ReadAnswer) | StderrReady(read: ReadAnswer)

  /** One turn of the loop: the time left, what `select` reports, whether the
      child is found to have exited, and whether a killed child can be reaped. */
  datatype Tick = Tick(remaining: int, events: seq<Event>, exit: Option<int>, reaped: Option<int>)

  datatype ExitKind = Exited | TimedOut | OutputLimitExceeded

  datatype RawWorkerExit = RawWorkerExit(kind: ExitKind, returncode: int, stdout: Bytes, stderr: Bytes) {
    /** The constructor's protocol-wide bounds. */
    predicate Valid() {
      |stdout| <= MAX_CLAIM_BYTES && |stderr| <= MAX_STDERR_BYTES
    }
  }

  datatype HarnessError = PipeIoFailed | ReapFailed

  function Min(a: nat, b: nat): nat {
    if a <= b then a else b
  }

  /** The first `limit` items of `s`. */
  function Clip(s: Bytes, limit: nat): Bytes {
    s[..Min(limit, |s|)]
  }

  function ChunkSize(n: nat, left: nat): (size: nat)
    ensures size <= left && size <= IO_CHUNK_BYTES && (size == 0 <==> left == 0)
  {
    Min(if n == 0 then 1 else n, Min(IO_CHUNK_BYTES, left))
  }

  // ---------- the exchange as a counter machine ----------

  datatype Setting = Setting(child: Child, request: Bytes, limits: Limits)

  /** How far each stream has got and which streams are still registered. */
  datatype Counters = Counters(
    offset: nat, outRead: nat, errRead: nat,
    stdinOpen: bool, stdoutOpen: bool, stderrOpen: bool, broken: bool)

  const START := Counters(0, 0, 0, true, true, true, false)

  datatype Ending =
    | Running(counters: Counters)
    | Ended(kind: ExitKind, returncode: int, counters: Counters)
    | Aborted(error: HarnessError)

  predicate Overflowed(s: Setting, c: Counters) {
    c.outRead > s.limits.stdoutBytes || c.errRead > s.limits.stderrBytes
  }

  /** What every reachable state satisfies. */
  predicate Sound(s: Setting, c: Counters) {
    && c.outRead <= |s.child.out| && c.errRead <= |s.child.err| && c.offset <= |s.request|
    && (c.stdinOpen ==> c.offset < |s.request|)
    && (!c.stdinOpen ==> c.offset == |s.request| || c.broken)
    && (!c.stdoutOpen ==> c.outRead == |s.child.out|)
    && (!c.stderrOpen ==> c.errRead == |s.child.err|)
  }

  /** `None` is an I/O failure of the harness. */
  function AfterWrite(s: Setting, c: Counters, answer: WriteAnswer): Option<Counters>
    requires Sound(s, c) && c.stdinOpen
  {
    match answer
    case WriteBlocked => Some(c)
    case WriteFailed => None
    case BrokenPipe => Some(c.(stdinOpen := false, broken := true))
    case Accepts(n) =>
      var written := Min(n, Min(IO_CHUNK_BYTES, |s.request| - c.offset));
      if written == 0 then None
      else Some(c.(offset := c.offset + written, stdinOpen := c.offset + written != |s.request|))
  }

  function AfterEvent(s: Setting, c: Counters, event: Event): (r: Option<Counters>)
    requires Sound(s, c)
    ensures r.Some? ==> Sound(s, r.value)
  {
    match event
    case StdinReady(write) => if c.stdinOpen then AfterWrite(s, c, write) else Some(c)
    case StdoutReady(read) =>
      if !c.stdoutOpen || read.ReadBlocked? then Some(c)
      else if read.ReadFailed? then None
      else
        var size := ChunkSize(read.n, |s.child.out| - c.outRead);
        Some(c.(outRead := c.outRead + size, stdoutOpen := size != 0))
    case StderrReady(read) =>
      if !c.stderrOpen || read.ReadBlocked? then Some(c)
      else if read.ReadFailed? then None
      else
        var size := ChunkSize(read.n, |s.child.err| - c.errRead);
        Some(c.(errRead := c.errRead + size, stderrOpen := size != 0))
  }

  function AfterEvents(s: Setting, c: Counters, events: seq<Event>): (r: Option<Counters>)
    requires Sound(s, c)
    ensures r.Some? ==> Sound(s, r.value)
    decreases |events|
  {
    if events == [] then Some(c)
    else
      var next := AfterEvent(s, c, events[0]);
      if next.None? then None else AfterEvents(s, next.value, events[1..])
  }

  function Kill(tick: Tick, kind: ExitKind, c: Counters): Ending {
    if tick.reaped.None? then Aborted(ReapFailed) else Ended(kind, tick.reaped.value, c)
  }

  predicate AllClosed(c: Counters) {
    !c.stdinOpen && !c.stdoutOpen && !c.stderrOpen
  }

  /** The whole run against an environment script. */
  function Play(s: Setting, c: Counters, script: seq<Tick>): Ending
    requires Sound(s, c)
    decreases |script|
  {
    if script == [] then Running(c)
    else
      var tick := script[0];
      if Overflowed(s, c) then Kill(tick, OutputLimitExceeded, c)
      else if tick.remaining <= 0 then Kill(tick, TimedOut, c)
      else if AllClosed(c) then
        if tick.exit.Some? then Ended(Exited, tick.exit.value, c) else Play(s, c, script[1..])
      else
        var next := AfterEvents(s, c, tick.events);
        if next.None? then Aborted(if tick.reaped.None? then ReapFailed else PipeIoFailed)
        else Play(s, next.value, script[1..])
  }

  /** Nothing read or written is ever taken back. */
  predicate Advanced(c: Counters, c': Counters) {
    && c.offset <= c'.offset && c.outRead <= c'.outRead && c.errRead <= c'.errRead
    && (c'.stdinOpen ==> c.stdinOpen) && (c'.stdoutOpen ==> c.stdoutOpen) && (c'.stderrOpen ==> c.stderrOpen)
    && (c.broken ==> c'.broken)
  }

  lemma {:induction false} EventsAdvance(s: Setting, c: Counters, events: seq<Event>)
    requires Sound(s, c)
    ensures AfterEvents(s, c, events).Some? ==> Advanced(c, AfterEvents(s, c, events).value)
    decreases |events|
  {
    if events != [] {
      var next := AfterEvent(s, c, events[0]);
      if next.Some? {
        EventsAdvance(s, next.value, events[1..]);
      }
    }
  }

  ghost predicate SomeDeadlinePassed(script: seq<Tick>) {
    exists k :: 0 <= k < |script| && script[k].remaining <= 0
  }

  /** What an ending of `script` from `c` says about its last state. */
  ghost predicate EndsSoundly(s: Setting, c: Counters, script: seq<Tick>, ending: Ending) {
    match ending
    case Aborted(_) => true
    case Running(last) => Sound(s, last) && Advanced(c, last) && !SomeDeadlinePassed(script)
    case Ended(kind, _, last) =>
      && Sound(s, last) && Advanced(c, last)
      && (kind == OutputLimitExceeded <==> Overflowed(s, last))
      && (kind == TimedOut ==> SomeDeadlinePassed(script))
      && (kind == Exited ==> AllClosed(last))
  }

  /** The state a run ends or stands in is sound and no step back; the kind of
      ending says how much of the child's output there was and whether its time
      ran out. */
  lemma {:induction false} PlaysAreSound(s: Setting, c: Counters, script: seq<Tick>)
    requires Sound(s, c)
    ensures EndsSoundly(s, c, script, Play(s, c, script))
    decreases |script|
  {
    if script != [] && !Overflowed(s, c) && script[0].remaining > 0 {
      LaterDeadline(script);
      if AllClosed(c) {
        PlaysAreSound(s, c, script[1..]);
      } else {
        EventsAdvance(s, c, script[0].events);
        var next := AfterEvents(s, c, script[0].events);
        if next.Some? {
          PlaysAreSound(s, next.value, script[1..]);
        }
      }
    }
  }

  lemma LaterDeadline(script: seq<Tick>)
    requires script != [] && script[0].remaining > 0
    ensures SomeDeadlinePassed(script) <==> SomeDeadlinePassed(script[1..])
  {
    if k :| 0 <= k < |script| && script[k].remaining <= 0 {
      assert script[1..][k - 1].remaining <= 0;
    }
  }

  /** `whole` is what playing `rest` after `ending` gives. */
  ghost predicate ContinuesAs(s: Setting, ending: Ending, rest: seq<Tick>, whole: Ending) {
    match ending
    case Running(last) => Sound(s, last) && whole == Play(s, last, rest)
    case _ => whole == ending
  }

  /** Runs compose: continuing a run that still goes is playing the longer
      script, and an ended run ignores the rest of it. */
  lemma {:induction false} PlayContinues(s: Setting, c: Counters, first: seq<Tick>, rest: seq<Tick>)
    requires Sound(s, c)
    ensures ContinuesAs(s, Play(s, c, first), rest, Play(s, c, first + rest))
    decreases |first|
  {
    if first == [] {
      assert first + rest == rest;
    } else {
      assert (first + rest)[1..] == first[1..] + rest;
      if !Overflowed(s, c) && first[0].remaining > 0 {
        var next := if AllClosed(c) then Some(c) else AfterEvents(s, c, first[0].events);
        if next.Some? {
          PlayContinues(s, next.value, first[1..], rest);
        }
      }
    }
  }

  /** The exit record of an ended run. */
  function ExitRecord(s: Setting, kind: ExitKind, returncode: int, c: Counters): RawWorkerExit
    requires Sound(s, c)
  {
    RawWorkerExit(
      kind, returncode,
      Clip(s.child.out[..c.outRead], s.limits.stdoutBytes),
      Clip(s.child.err[..c.errRead], s.limits.stderrBytes))
  }

  /** Whatever the interleaving and chunking: every record respects the
      protocol-wide bounds, EXITED means both buffers hold the complete child
      streams, and OUTPUT_LIMIT_EXCEEDED means the child really wrote too much. */
  lemma RecordsAreFaithful(s: Setting, script: seq<Tick>)
    requires s.limits.Valid() && s.request != []
    requires Play(s, START, script).Ended?
    ensures Sound(s, Play(s, START, script).counters)
    ensures var e := Play(s, START, script);
      var raw := ExitRecord(s, e.kind, e.returncode, e.counters);
      && raw.Valid()
      && (e.kind == Exited ==>
            && raw.stdout == s.child.out && raw.stderr == s.child.err
            && |s.child.out| <= s.limits.stdoutBytes && |s.child.err| <= s.limits.stderrBytes
            && (e.counters.offset == |s.request| || e.counters.broken))
      && (e.kind == OutputLimitExceeded ==>
            |s.child.out| > s.limits.stdoutBytes || |s.child.err| > s.limits.stderrBytes)
      && (e.kind != OutputLimitExceeded ==> raw.stdout <= s.child.out && raw.stderr <= s.child.err)
  {
    PlaysAreSound(s, START, script);
  }

  /** The bytes of an exited child do not depend on the schedule. */
  lemma ExitsAgree(s: Setting, a: seq<Tick>, b: seq<Tick>)
    requires s.limits.Valid() && s.request != []
    requires Play(s, START, a).Ended? && Play(s, START, a).kind == Exited
    requires Play(s, START, b).Ended? && Play(s, START, b).kind == Exited
    ensures Play(s, START, a).counters.outRead == Play(s, START, b).counters.outRead
    ensures Play(s, START, a).counters.errRead == Play(s, START, b).counters.errRead
  {
    PlaysAreSound(s, START, a);
    PlaysAreSound(s, START, b);
  }

  // ---------- the loop itself ----------

  /** `_append_bounded`: appending to a clipped buffer clips the longer stream,
      and the flag says whether anything fell off. */
  method AppendBounded(ghost sofar: Bytes, buffer: Bytes, chunk: Bytes, limit: nat)
    returns (extended: Bytes, exceeded: bool)
    requires buffer == Clip(sofar, limit) && chunk != []
    ensures extended == Clip(sofar + chunk, limit)
    ensures exceeded <==> |sofar + chunk| > limit
  {
    var remaining := if limit > |buffer| then limit - |buffer| else 0;
    extended := buffer + chunk[..Min(remaining, |chunk|)];
    exceeded := |chunk| > remaining;
  }

  /** The next chunk of a stream, appended to its clipped buffer; an empty chunk
      is the end of the stream. */
  method TakeChunk(stream: Bytes, read: nat, buffer: Bytes, n: nat, limit: nat)
    returns (size: nat, extended: Bytes, exceeded: bool)
    requires read <= |stream| && buffer == Clip(stream[..read], limit)
    ensures size == ChunkSize(n, |stream| - read)
    ensures extended == Clip(stream[..read + size], limit)
    ensures size > 0 ==> (exceeded <==> read + size > limit)
  {
    size := ChunkSize(n, |stream| - read);
    var chunk := stream[read..read + size];
    if chunk == [] {
      return size, buffer, false;
    }
    extended, exceeded := AppendBounded(stream[..read], buffer, chunk, limit);
    assert stream[..read] + chunk == stream[..read + size];
  }

  class ExchangeState {
    const child: Child
    const request: Bytes
    const limits: Limits

    // the loop's own state
    var requestOffset: nat
    var stdout: Bytes
    var stderr: Bytes
    var outputLimitExceeded: bool

    // which streams are still registered with the selector
    var stdinOpen: bool
    var stdoutOpen: bool
    var stderrOpen: bool

    // what has crossed the pipes
    var outRead: nat
    var errRead: nat
    var received: Bytes
    ghost var broken: bool

    function Context(): Setting {
      Setting(child, request, limits)
    }

    ghost function Counted(): Counters
      reads this
    {
      Counters(requestOffset, outRead, errRead, stdinOpen, stdoutOpen, stderrOpen, broken)
    }

    /** The buffers are the clipped streams, the flag is sticky overflow, and
        the child has received exactly the request up to the offset. */
    ghost predicate Valid()
      reads this
    {
      && Sound(Context(), Counted())
      && stdout == Clip(child.out[..outRead], limits.stdoutBytes)
      && stderr == Clip(child.err[..errRead], limits.stderrBytes)
      && (outputLimitExceeded <==> Overflowed(Context(), Counted()))
      && received == request[..requestOffset]
    }

    constructor (child: Child, request: Bytes, limits: Limits)
      requires request != []
      ensures Valid() && Context() == Setting(child, request, limits) && Counted() == START
    {
      this.child, this.request, this.limits := child, request, limits;
      requestOffset, stdout, stderr, outputLimitExceeded := 0, [], [], false;
      stdinOpen, stdoutOpen, stderrOpen := true, true, true;
      outRead, errRead, received, broken := 0, 0, [], false;
    }

    /** `_write_worker_request` */
    method WriteWorkerRequest(answer: WriteAnswer) returns (ok: bool)
      requires Valid() && stdinOpen
      modifies this`requestOffset, this`received, this`stdinOpen, this`broken
      ensures ok <==> AfterWrite(Context(), old(Counted()), answer).Some?
      ensures ok ==> Valid() && Some(Counted()) == AfterWrite(Context(), old(Counted()), answer)
    {
      match answer {
        case WriteBlocked => return true;
        case WriteFailed => return false;
        case BrokenPipe =>
          stdinOpen, broken := false, true;
          return true;
        case Accepts(n) =>
          var offered := request[requestOffset..requestOffset + Min(IO_CHUNK_BYTES, |request| - requestOffset)];
          var written := Min(n, |offered|);
          if written <= 0 {
            return false;
          }
          received := received + offered[..written];
          requestOffset := requestOffset + written;
          assert received == request[..requestOffset];
          if requestOffset == |request| {
            stdinOpen := false;
          }
          return true;
      }
    }

    /** `_read_worker_output` on the standard output. */
    method ReadStdout(answer: ReadAnswer) returns (ok: bool)
      requires Valid() && stdoutOpen
      modifies this`stdout, this`stdoutOpen, this`outRead, this`outputLimitExceeded
      ensures ok <==> AfterEvent(Context(), old(Counted()), StdoutReady(answer)).Some?
      ensures ok ==> Valid() && Some(Counted()) == AfterEvent(Context(), old(Counted()), StdoutReady(answer))
    {
      match answer {
        case ReadBlocked => return true;
        case ReadFailed => return false;
        case Delivers(n) =>
          var size, extended, exceeded := TakeChunk(child.out, outRead, stdout, n, limits.stdoutBytes);
          if size == 0 {
            stdoutOpen := false;
            return true;
          }
          stdout, outRead := extended, outRead + size;
          outputLimitExceeded := outputLimitExceeded || exceeded;
          return true;
      }
    }

    /** `_read_worker_output` on the standard error. */
    method ReadStderr(answer: ReadAnswer) returns (ok: bool)
      requires Valid() && stderrOpen
      modifies this`stderr, this`stderrOpen, this`errRead, this`outputLimitExceeded
      ensures ok <==> AfterEvent(Context(), old(Counted()), StderrReady(answer)).Some?
      ensures ok ==> Valid() && Some(Counted()) == AfterEvent(Context(), old(Counted()), StderrReady(answer))
    {
      match answer {
        case ReadBlocked => return true;
        case ReadFailed => return false;
        case Delivers(n) =>
          var size, extended, exceeded := TakeChunk(child.err, errRead, stderr, n, limits.stderrBytes);
          if size == 0 {
            stderrOpen := false;
            return true;
          }
          stderr, errRead := extended, errRead + size;
          outputLimitExceeded := outputLimitExceeded || exceeded;
          return true;
      }
    }

    /** `_handle_process_event`; an unregistered stream is never reported. */
    method HandleEvent(event: Event) returns (ok: bool)
      requires Valid()
      modifies this
      ensures ok <==> AfterEvent(Context(), old(Counted()), event).Some?
      ensures ok ==> Valid() && Some(Counted()) == AfterEvent(Context(), old(Counted()), event)
    {
      ok := true;
      match event {
        case StdinReady(write) => if stdinOpen { ok := WriteWorkerRequest(write); }
        case StdoutReady(read) => if stdoutOpen { ok := ReadStdout(read); }
        case StderrReady(read) => if stderrOpen { ok := ReadStderr(read); }
      }
    }

    method HandleEvents(events: seq<Event>) returns (ok: bool)
      requires Valid()
      modifies this
      ensures ok <==> AfterEvents(Context(), old(Counted()), events).Some?
      ensures ok ==> Valid() && Some(Counted()) == AfterEvents(Context(), old(Counted()), events)
    {
      for i := 0 to |events|
        invariant Valid()
        invariant AfterEvents(Context(), old(Counted()), events) == AfterEvents(Context(), Counted(), events[i..])
      {
        ok := HandleEvent(events[i]);
        if !ok {
          return false;
        }
      }
      ok := true;
    }

    /** `_exchange_with_process` returns what the counter machine prescribes,
        with the bytes that the counters stand for; `None` means that the loop
        is still running when the environment's script ends. */
    method ExchangeWithProcess(script: seq<Tick>)
      returns (r: Option<Result<RawWorkerExit, HarnessError>>)
      requires Valid()
      modifies this
      ensures match Play(Context(), old(Counted()), script)
        case Running(last) => r.None? && Valid() && Counted() == last
        case Aborted(error) => r == Some(Err(error))
        case Ended(kind, returncode, last) =>
          && Valid() && Counted() == last
          && r == Some(Ok(ExitRecord(Context(), kind, returncode, last)))
    {
      for i := 0 to |script|
        invariant Valid()
        invariant Play(Context(), old(Counted()), script) == Play(Context(), Counted(), script[i..])
      {
        var tick := script[i];
        if outputLimitExceeded {
          if tick.reaped.None? {
            return Some(Err(ReapFailed));
          }
          return Some(Ok(RawWorkerExit(OutputLimitExceeded, tick.reaped.value, stdout, stderr)));
        }
        if tick.remaining <= 0 {
          if tick.reaped.None? {
            return Some(Err(ReapFailed));
          }
          return Some(Ok(RawWorkerExit(TimedOut, tick.reaped.value, stdout, stderr)));
        }
        if !stdinOpen && !stdoutOpen && !stderrOpen {
          if tick.exit.Some? {
            return Some(Ok(RawWorkerExit(Exited, tick.exit.value, stdout, stderr)));
          }
        } else {
          var ok := HandleEvents(tick.events);
          if !ok {
            return Some(Err(if tick.reaped.None? then ReapFailed else PipeIoFailed));
          }
        }
      }
      r := None;
    }
  }
}
