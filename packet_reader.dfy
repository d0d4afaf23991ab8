/** The capture session state machine (PacketReader.cs).
    The reader owns a Pcap handle. `busy` is the source's `thread != null`. The
    single-packet read loop, the lazy packet sequence and the asynchronous worker
    are methods proved against the specification functions `ReadLoop`, `ReadStep`
    and `Drain`, which are in turn related to the scripted native results by the
    lemmas at the end of the module. */
module PacketReaders {
  import opened Exceptions
  import opened NativeMethods
  import opened ArgumentGuards
  import opened Packets
  import opened SafeHandles

  const ReaderName := "PacketReader"
  const AsyncInProgressMessage := "An asynchronous operation is in progress."
  const NoAsyncMessage := "No asynchronous operation in progress."
  /** Milliseconds a native read waits before reporting a timeout */
  const CaptureTimeout: int := 100

  /** What one read produces: a packet, the end of the stream (the source's null), or
      a raised error. */
  datatype ReadOutcome = Read(packet: Packet) | EndOfStream | Failed(error: Error)

  /** A callback the asynchronous worker posts to the caller's context. */
  datatype Post = PacketRead(packet: Packet) | Completed(error: Option<Error>)

  /** The result of the polling loop: the first non-timeout native result, the
      session after it, and the number of pcap_next_ex calls made. */
  datatype Poll = Poll(result: NextResult, after: Session, polls: nat)

  /** One read: its outcome, the session after it and the foreign calls it made. */
  datatype Step = Step(outcome: ReadOutcome, after: Session, calls: seq<Call>)

  /** A whole pass of reads up to the end of the stream or the first error. */
  datatype Run = Run(packets: seq<Packet>, error: Option<Error>, after: Session, calls: seq<Call>)

  /** The effect of an operation that returns nothing: what it raised and the
      foreign calls it made. */
  datatype Effect = Effect(outcome: Outcome, calls: seq<Call>)

  function Polls(raw: int, n: nat): (calls: seq<Call>)
    ensures |calls| == n
  {
    if n == 0 then [] else Polls(raw, n - 1) + [PcapNextEx(raw)]
  }

  /** pcap_next_ex is called until it returns something other than a timeout (0). */
  function ReadLoop(s: Session): (p: Poll)
    ensures p.result.code != 0 && p.polls >= 1 && WellFormed(p.result)
    ensures |p.after.incoming| <= |s.incoming|
    ensures p.result.code != ReturnEof ==> |p.after.incoming| < |s.incoming|
    decreases |s.incoming|
  {
    var next := NextEx(s);
    if next.0.code == 0 then
      var rest := ReadLoop(next.1);
      Poll(rest.result, rest.after, rest.polls + 1)
    else
      Poll(next.0, next.1, 1)
  }

  /** The packet built from a native result: exactly `dataLength` bytes copied
      from the data pointer, the native timestamp, and the session's link type. */
  function ToPacket(r: NextResult, linkLayerType: int): (p: Packet)
    requires WellFormed(r)
    ensures |p.data| == r.header.dataLength && p.data == r.data[..r.header.dataLength]
    ensures p.nativeTimestamp == r.header.timestamp && p.linkLayerType == linkLayerType
  {
    Packet(r.data[..r.header.dataLength], r.header.timestamp, linkLayerType)
  }

  /** ReadPacketWithoutBusyCheck: the disposed check, then the polling loop, then a
      dispatch on the return code: -1 raises the native error text, -2 is the end of
      the stream, anything else is a packet. */
  function ReadStep(closed: bool, raw: int, lastError: string, linkLayerType: int, s: Session): (st: Step)
    ensures closed ==> st == Step(Failed(ObjectDisposed(ReaderName)), s, [])
    ensures |st.after.incoming| <= |s.incoming|
    ensures st.outcome.Read? ==> |st.after.incoming| < |s.incoming|
    ensures st.outcome.Read? ==> (st.outcome.packet.linkLayerType == linkLayerType
                              && |st.outcome.packet.data| == ReadLoop(s).result.header.dataLength)
  {
    var guard := ThrowIfDisposed(closed, ReaderName);
    if guard.Fail? then Step(Failed(guard.error), s, [])
    else
      var p := ReadLoop(s);
      var calls := Polls(raw, p.polls);
      if p.result.code == ReturnError then
        Step(Failed(CaptureError(lastError)), p.after, calls + [PcapGetErr(raw)])
      else if p.result.code == ReturnEof then
        Step(EndOfStream, p.after, calls)
      else
        Step(Read(ToPacket(p.result, linkLayerType)), p.after, calls)
  }

  /** ReadPacketsWithoutBusyCheck enumerated to its end: reads until the end of the
      stream; a raised error ends the sequence. */
  function Drain(closed: bool, raw: int, lastError: string, linkLayerType: int, s: Session): (run: Run)
    ensures |run.after.incoming| <= |s.incoming|
    decreases |s.incoming|
  {
    var st := ReadStep(closed, raw, lastError, linkLayerType, s);
    match st.outcome
    case Read(p) =>
      var rest := Drain(closed, raw, lastError, linkLayerType, st.after);
      Run([p] + rest.packets, rest.error, rest.after, st.calls + rest.calls)
    case EndOfStream => Run([], None, st.after, st.calls)
    case Failed(e) => Run([], Some(e), st.after, st.calls)
  }

  function PacketPosts(packets: seq<Packet>): (posts: seq<Post>)
  {
    seq(|packets|, i requires 0 <= i < |packets| => PacketRead(packets[i]))
  }

  /** ApplyFilter: the disposed check, the null check, then pcap_compile; a failed
      compile raises at once, otherwise pcap_setfilter, pcap_freecode and only then
      the setfilter error, if any. */
  function FilterEffect(closed: bool, raw: int, lastError: string, filter: Option<string>,
                        compileResult: int, setFilterResult: int): (e: Effect)
  {
    var disposed := ThrowIfDisposed(closed, ReaderName);
    var missing := ThrowIfNull(filter, "filter");
    if disposed.Fail? then Effect(disposed, [])
    else if missing.Fail? then Effect(missing, [])
    else
      var compile := PcapCompile(raw, filter.value, 1, 0);
      if compileResult == ReturnError then
        Effect(Fail(CaptureError(lastError)), [compile, PcapGetErr(raw)])
      else if setFilterResult == ReturnError then
        Effect(Fail(CaptureError(lastError)), [compile, PcapSetFilter(raw), PcapFreeCode, PcapGetErr(raw)])
      else
        Effect(Pass, [compile, PcapSetFilter(raw), PcapFreeCode])
  }

  /** The filter discipline: the disposed check comes before the null check and
      both before any foreign call; success exactly when neither compile nor
      setfilter fails; a failed compile raises without setfilter or freecode;
      otherwise freecode runs exactly once, right after setfilter and before the
      setfilter error is raised. */
  lemma FilterDiscipline(closed: bool, raw: int, lastError: string, filter: Option<string>,
                         compileResult: int, setFilterResult: int)
    ensures var e := FilterEffect(closed, raw, lastError, filter, compileResult, setFilterResult);
            && (closed ==> e == Effect(Fail(ObjectDisposed(ReaderName)), []))
            && (!closed && filter.None? ==> e == Effect(Fail(ArgumentNull("filter")), []))
            && (e.outcome.Pass? <==> !closed && filter.Some? && compileResult != ReturnError && setFilterResult != ReturnError)
            && (e.outcome.Fail? && e.calls != [] ==>
                  e.calls[|e.calls| - 1] == PcapGetErr(raw) && e.outcome.error == CaptureError(lastError))
            && (e.calls != [] ==> e.calls[0] == PcapCompile(raw, filter.value, 1, 0))
            && (compileResult == ReturnError ==> PcapSetFilter(raw) !in e.calls && PcapFreeCode !in e.calls)
            && (PcapFreeCode in e.calls <==> !closed && filter.Some? && compileResult != ReturnError)
            && (PcapFreeCode in e.calls ==>
                  multiset(e.calls)[PcapFreeCode] == 1 && e.calls[1] == PcapSetFilter(raw) && e.calls[2] == PcapFreeCode)
  {
  }

  /** The loop invariant of the asynchronous worker: the whole pass is what has
      been read so far followed by the rest of the pass. */
  ghost predicate RunContinues(whole: Run, packets: seq<Packet>, made: seq<Call>, rest: Run) {
    whole == Run(packets + rest.packets, rest.error, rest.after, made + rest.calls)
  }

  /** One read of the worker keeps the loop invariant: the pass continues after a
      packet, and is complete at the end of the stream or at an error. */
  lemma WorkerStep(closed: bool, raw: int, lastError: string, linkLayerType: int, s: Session,
                   whole: Run, packets: seq<Packet>, made: seq<Call>)
    requires RunContinues(whole, packets, made, Drain(closed, raw, lastError, linkLayerType, s))
    ensures var st := ReadStep(closed, raw, lastError, linkLayerType, s);
            match st.outcome
            case Read(p) => RunContinues(whole, packets + [p], made + st.calls, Drain(closed, raw, lastError, linkLayerType, st.after))
            case EndOfStream => whole == Run(packets, None, st.after, made + st.calls)
            case Failed(e) => whole == Run(packets, Some(e), st.after, made + st.calls)
  {
    var st := ReadStep(closed, raw, lastError, linkLayerType, s);
    var next := Drain(closed, raw, lastError, linkLayerType, st.after);
    assert packets + [] == packets;
    match st.outcome
    case Read(p) =>
      assert packets + ([p] + next.packets) == (packets + [p]) + next.packets;
      assert made + (st.calls + next.calls) == (made + st.calls) + next.calls;
    case EndOfStream =>
    case Failed(e) =>
  }

  lemma PacketPostsSnoc(packets: seq<Packet>, p: Packet)
    ensures PacketPosts(packets + [p]) == PacketPosts(packets) + [PacketRead(p)]
  {
  }

  class PacketReader {
    const handle: SafeHandle
    const linkLayerType: int
    var busy: bool
    var posted: seq<Post>

    ghost predicate Valid()
      reads this
    {
      handle.kind == Pcap
    }

    /** Wraps an open capture handle and fixes the link-layer type once. */
    constructor (h: SafeHandle)
      requires h.kind == Pcap && !h.closed
      modifies h.lib
      ensures handle == h && linkLayerType == h.datalink && !busy && posted == [] && Valid()
      ensures h.lib.calls == old(h.lib.calls) + [PcapDatalink(h.raw)]
    {
      var code := h.Datalink();
      handle := h;
      linkLayerType := code;
      busy := false;
      posted := [];
    }

    function ThrowIfBusy(): (r: Outcome)
      reads this
      ensures r.Fail? <==> busy
      ensures r.Fail? ==> r.error == InvalidOperation(AsyncInProgressMessage)
    {
      if busy then Fail(InvalidOperation(AsyncInProgressMessage)) else Pass
    }

    /** The LinkLayerType getter: the value fixed at construction, unless closed. */
    function LinkLayerType(): (r: Result<int>)
      reads this, handle
      ensures r.Err? <==> handle.closed
      ensures r.Err? ==> r.error == ObjectDisposed(ReaderName)
      ensures r.Ok? ==> r.value == linkLayerType
    {
      var guard := ThrowIfDisposed(handle.closed, ReaderName);
      if guard.Fail? then Err(guard.error) else Ok(linkLayerType)
    }

    method ApplyFilter(filter: Option<string>, compileResult: int, setFilterResult: int) returns (r: Outcome)
      requires Valid()
      modifies handle.lib
      ensures var e := FilterEffect(handle.closed, handle.raw, handle.lastError, filter, compileResult, setFilterResult);
              r == e.outcome && handle.lib.calls == old(handle.lib.calls) + e.calls
    {
      r := ThrowIfDisposed(handle.closed, ReaderName);
      if r.Fail? { return; }
      r := ThrowIfNull(filter, "filter");
      if r.Fail? { return; }
      handle.lib.Invoke(PcapCompile(handle.raw, filter.value, 1, 0));
      if compileResult == ReturnError {
        var e := handle.ThrowLastError();
        return Fail(e);
      }
      handle.lib.Invoke(PcapSetFilter(handle.raw));
      handle.lib.Invoke(PcapFreeCode);
      if setFilterResult == ReturnError {
        var e := handle.ThrowLastError();
        return Fail(e);
      }
      r := Pass;
    }

    /** ClearFilter is ApplyFilter of the empty expression. */
    method ClearFilter(compileResult: int, setFilterResult: int) returns (r: Outcome)
      requires Valid()
      modifies handle.lib
      ensures var e := FilterEffect(handle.closed, handle.raw, handle.lastError, Some(""), compileResult, setFilterResult);
              r == e.outcome && handle.lib.calls == old(handle.lib.calls) + e.calls
    {
      r := ApplyFilter(Some(""), compileResult, setFilterResult);
    }

    method ReadPacketWithoutBusyCheck() returns (r: ReadOutcome)
      requires Valid()
      modifies handle`session, handle.lib
      ensures var st := ReadStep(handle.closed, handle.raw, handle.lastError, linkLayerType, old(handle.session));
              r == st.outcome && handle.session == st.after && handle.lib.calls == old(handle.lib.calls) + st.calls
    {
      var guard := ThrowIfDisposed(handle.closed, ReaderName);
      if guard.Fail? { return Failed(guard.error); }
      ghost var s0 := handle.session;
      ghost var calls0 := handle.lib.calls;
      ghost var polls: nat := 0;
      while true
        invariant !handle.closed
        invariant ReadLoop(s0).result == ReadLoop(handle.session).result
        invariant ReadLoop(s0).after == ReadLoop(handle.session).after
        invariant ReadLoop(s0).polls == ReadLoop(handle.session).polls + polls
        invariant handle.lib.calls == calls0 + Polls(handle.raw, polls)
        decreases |handle.session.incoming|
      {
        ghost var before := handle.session;
        var result := handle.NextEx();
        polls := polls + 1;
        if result.code == ReturnError {
          var e := handle.ThrowLastError();
          return Failed(e);
        }
        if result.code == ReturnEof {
          return EndOfStream;
        }
        if result.code == 0 {
          continue;
        }
        return Read(ToPacket(result, linkLayerType));
      }
    }

    /** ReadPacket: the busy check comes before anything else. */
    method ReadPacket() returns (r: ReadOutcome)
      requires Valid()
      modifies handle`session, handle.lib
      ensures busy ==> (r == Failed(InvalidOperation(AsyncInProgressMessage))
                    && handle.session == old(handle.session) && handle.lib.calls == old(handle.lib.calls))
      ensures !busy ==> var st := ReadStep(handle.closed, handle.raw, handle.lastError, linkLayerType, old(handle.session));
                        r == st.outcome && handle.session == st.after && handle.lib.calls == old(handle.lib.calls) + st.calls
    {
      var guard := ThrowIfBusy();
      if guard.Fail? { return Failed(guard.error); }
      r := ReadPacketWithoutBusyCheck();
    }

    /** ReadPackets: the busy check is made at once; the disposed check and every
        native call wait until the sequence is enumerated. */
    method ReadPackets() returns (r: Result<PacketEnumerator>)
      ensures busy ==> r == Err(InvalidOperation(AsyncInProgressMessage))
      ensures !busy ==> r.Ok? && fresh(r.value) && r.value.reader == this && !r.value.finished
    {
      var guard := ThrowIfBusy();
      if guard.Fail? { return Err(guard.error); }
      var e := new PacketEnumerator(this);
      r := Ok(e);
    }

    /** Stop: the disposed check, then pcap_breakloop. */
    method Stop() returns (r: Outcome)
      requires Valid()
      modifies handle`session, handle.lib
      ensures handle.closed ==> (r == Fail(ObjectDisposed(ReaderName))
                             && handle.session == old(handle.session) && handle.lib.calls == old(handle.lib.calls))
      ensures !handle.closed ==> (r == Pass && handle.session == old(handle.session).(breakRequested := true)
                              && handle.lib.calls == old(handle.lib.calls) + [PcapBreakLoop(handle.raw)])
    {
      r := ThrowIfDisposed(handle.closed, ReaderName);
      if r.Fail? { return; }
      handle.BreakLoop();
    }

    /** CancelAsync: raises when no asynchronous read is in progress, before calling
        Stop; otherwise it is Stop followed by a bounded join of the worker. */
    method CancelAsync() returns (r: Outcome)
      requires Valid()
      modifies handle`session, handle.lib
      ensures !busy ==> (r == Fail(InvalidOperation(NoAsyncMessage))
                     && handle.session == old(handle.session) && handle.lib.calls == old(handle.lib.calls))
      ensures busy && handle.closed ==> (r == Fail(ObjectDisposed(ReaderName))
                     && handle.session == old(handle.session) && handle.lib.calls == old(handle.lib.calls))
      ensures busy && !handle.closed ==> (r == Pass && handle.session == old(handle.session).(breakRequested := true)
                     && handle.lib.calls == old(handle.lib.calls) + [PcapBreakLoop(handle.raw)])
    {
      if !busy {
        return Fail(InvalidOperation(NoAsyncMessage));
      }
      r := Stop();
      // thread.Join(CaptureTimeout) only waits; it changes no state of the model
    }

    /** ReadPacketsAsync: the disposed check, then the busy check, then the worker
        thread is started and the reader is busy. */
    method ReadPacketsAsync() returns (r: Outcome)
      modifies this`busy
      ensures handle.closed ==> r == Fail(ObjectDisposed(ReaderName)) && busy == old(busy)
      ensures !handle.closed && old(busy) ==> r == Fail(InvalidOperation(AsyncInProgressMessage)) && busy
      ensures !handle.closed && !old(busy) ==> r == Pass && busy
    {
      r := ThrowIfDisposed(handle.closed, ReaderName);
      if r.Fail? { return; }
      r := ThrowIfBusy();
      if r.Fail? { return; }
      busy := true;
    }

    /** The worker's loop invariant: the packets read so far are posted in order, the
        calls made so far are logged, and the pass is either still running (the rest
        of it is the pass from the current session) or complete. */
    ghost predicate Progress(whole: Run, posted0: seq<Post>, calls0: seq<Call>,
                             packets: seq<Packet>, made: seq<Call>, error: Option<Error>, done: bool)
      reads this, handle, handle.lib
    {
      && posted == posted0 + PacketPosts(packets)
      && handle.lib.calls == calls0 + made
      && (!done ==> error == None
                    && RunContinues(whole, packets, made, Drain(handle.closed, handle.raw, handle.lastError, linkLayerType, handle.session)))
      && (done ==> whole == Run(packets, error, handle.session, made))
    }

    /** One iteration of the worker's loop: a read, and the post of its packet. */
    method WorkerRead(ghost whole: Run, ghost posted0: seq<Post>, ghost calls0: seq<Call>,
                      ghost packets: seq<Packet>, ghost made: seq<Call>)
      returns (done: bool, error: Option<Error>, ghost packets': seq<Packet>, ghost made': seq<Call>)
      requires Valid() && Progress(whole, posted0, calls0, packets, made, None, false)
      modifies this`posted, handle`session, handle.lib
      ensures Progress(whole, posted0, calls0, packets', made', error, done)
      ensures !done ==> |handle.session.incoming| < |old(handle.session.incoming)|
    {
      ghost var before := handle.session;
      ghost var st := ReadStep(handle.closed, handle.raw, handle.lastError, linkLayerType, before);
      WorkerStep(handle.closed, handle.raw, handle.lastError, linkLayerType, before, whole, packets, made);
      var outcome := ReadPacketWithoutBusyCheck();
      made' := made + st.calls;
      assert handle.lib.calls == calls0 + made';
      packets' := packets;
      error := None;
      match outcome {
        case Read(p) =>
          posted := posted + [PacketRead(p)];
          PacketPostsSnoc(packets, p);
          packets' := packets + [p];
          done := false;
        case EndOfStream =>
          done := true;
        case Failed(e) =>
          error := Some(e);
          done := true;
      }
    }

    /** The worker thread's body: posts every packet of the pass, in order, then
        exactly one completion carrying the error that ended it, if any; running the
        completion clears the busy flag. */
    method ReadPacketsAsyncThreadWorker()
      requires Valid() && busy
      modifies this`busy, this`posted, handle`session, handle.lib
      ensures var run := Drain(handle.closed, handle.raw, handle.lastError, linkLayerType, old(handle.session));
              && posted == old(posted) + PacketPosts(run.packets) + [Completed(run.error)]
              && !busy
              && handle.session == run.after
              && handle.lib.calls == old(handle.lib.calls) + run.calls
    {
      ghost var run0 := Drain(handle.closed, handle.raw, handle.lastError, linkLayerType, handle.session);
      ghost var posted0 := posted;
      ghost var calls0 := handle.lib.calls;
      ghost var packets: seq<Packet> := [];
      ghost var made: seq<Call> := [];
      var error: Option<Error> := None;
      var done := false;
      assert RunContinues(run0, packets, made, run0);
      while !done
        invariant Progress(run0, posted0, calls0, packets, made, error, done)
        invariant old(handle.closed) == handle.closed
        decreases |handle.session.incoming|, !done
      {
        done, error, packets, made := WorkerRead(run0, posted0, calls0, packets, made);
      }
      posted := posted + [Completed(error)];
      OnReadPacketsCompleted();
    }

    /** Runs the posted completion: the reader is no longer busy. */
    method OnReadPacketsCompleted()
      modifies this`busy
      ensures !busy
    {
      busy := false;
    }

    /** Dispose: Stop when busy (which raises if already closed), then close the handle. */
    method Dispose() returns (r: Outcome)
      requires Valid()
      modifies handle, handle.lib
      ensures busy && old(handle.closed) ==> (r == Fail(ObjectDisposed(ReaderName))
              && handle.closed && handle.session == old(handle.session) && handle.lib.calls == old(handle.lib.calls))
      ensures busy && !old(handle.closed) ==> (r == Pass && handle.closed
              && handle.session == old(handle.session).(breakRequested := true)
              && handle.lib.calls == old(handle.lib.calls) + [PcapBreakLoop(handle.raw)]
                                     + (if handle.IsInvalid() then [] else [PcapClose(handle.raw)]))
      ensures !busy ==> (r == Pass && handle.closed && handle.session == old(handle.session)
              && handle.lib.calls == old(handle.lib.calls)
                                     + (if old(handle.closed) || handle.IsInvalid() then [] else [PcapClose(handle.raw)]))
    {
      if busy {
        r := Stop();
        if r.Fail? { return; }
      }
      handle.Close();
      r := Pass;
    }
  }

  /** The enumerator of ReadPackets: each MoveNext performs one read; the end of
      the stream or a raised error finishes it for good. */
  class PacketEnumerator {
    const reader: PacketReader
    var finished: bool
    var current: Option<Packet>

    constructor (reader: PacketReader)
      ensures this.reader == reader && !finished && current == None
    {
      this.reader := reader;
      finished := false;
      current := None;
    }

    method MoveNext() returns (r: Result<bool>)
      requires reader.Valid()
      modifies this`finished, this`current, reader.handle`session, reader.handle.lib
      ensures old(finished) ==> (r == Ok(false) && finished && current == old(current)
              && reader.handle.session == old(reader.handle.session)
              && reader.handle.lib.calls == old(reader.handle.lib.calls))
      ensures !old(finished) ==>
              var st := ReadStep(reader.handle.closed, reader.handle.raw, reader.handle.lastError,
                                 reader.linkLayerType, old(reader.handle.session));
              && reader.handle.session == st.after
              && reader.handle.lib.calls == old(reader.handle.lib.calls) + st.calls
              && match st.outcome
                 case Read(p) => r == Ok(true) && current == Some(p) && !finished
                 case EndOfStream => r == Ok(false) && finished && current == old(current)
                 case Failed(e) => r == Err(e) && finished && current == old(current)
    {
      if finished {
        return Ok(false);
      }
      finished := true;
      var outcome := reader.ReadPacketWithoutBusyCheck();
      match outcome {
        case Read(p) =>
          current := Some(p);
          finished := false;
          r := Ok(true);
        case EndOfStream =>
          r := Ok(false);
        case Failed(e) =>
          r := Err(e);
      }
    }
  }

  /** Once a reader is disposed, LinkLayerType, Stop and ApplyFilter raise the
      disposed error, and Stop and ApplyFilter make no foreign call. */
  method UseAfterDispose(reader: PacketReader, filter: Option<string>, compileResult: int, setFilterResult: int)
    returns (linkLayerType: Result<int>, stopped: Outcome, filtered: Outcome)
    requires reader.Valid()
    modifies reader.handle, reader.handle.lib
    ensures reader.handle.closed
    ensures linkLayerType == Err(ObjectDisposed(ReaderName))
    ensures stopped == Fail(ObjectDisposed(ReaderName))
    ensures filtered == Fail(ObjectDisposed(ReaderName))
  {
    var _ := reader.Dispose();
    ghost var calls := reader.handle.lib.calls;
    linkLayerType := reader.LinkLayerType();
    stopped := reader.Stop();
    filtered := reader.ApplyFilter(filter, compileResult, setFilterResult);
    assert reader.handle.lib.calls == calls;
  }

  /** Dispose is not idempotent while the reader is busy: the first call stops the
      capture and closes the handle, the second raises from Stop. */
  method DisposeTwiceWhileBusy(reader: PacketReader) returns (first: Outcome, second: Outcome)
    requires reader.Valid() && reader.busy && !reader.handle.closed
    modifies reader.handle, reader.handle.lib
    ensures first == Pass
    ensures second == Fail(ObjectDisposed(ReaderName))
    ensures reader.handle.closed
  {
    first := reader.Dispose();
    second := reader.Dispose();
  }

  /** What pcap_next_ex reports for a pending break or a used-up script */
  const EofResult := NextResult(ReturnEof, NoHeader, [])

  /** The number of timeouts (code 0) at the head of a script */
  function LeadingTimeouts(incoming: Script): (k: nat)
    ensures k <= |incoming|
    ensures forall i | 0 <= i < k :: incoming[i].code == 0
    ensures k < |incoming| ==> incoming[k].code != 0
  {
    if incoming == [] || incoming[0].code != 0 then 0
    else
      var k := 1 + LeadingTimeouts(incoming[1..]);
      assert forall i | 1 <= i < k :: incoming[i] == incoming[1..][i - 1];
      k
  }

  /** The reference reading of a script with no break pending: timeouts are
      skipped, packets are kept in script order, and the first -1 (with the
      native error text) or -2 ends the pass; a used-up script ends it like -2. */
  function ScriptRun(incoming: Script, lastError: string, linkLayerType: int): (r: (seq<Packet>, Option<Error>))
    ensures |r.0| <= |incoming|
    ensures r.1.Some? ==> r.1.value == CaptureError(lastError)
  {
    if incoming == [] then ([], None)
    else if incoming[0].code == 0 then ScriptRun(incoming[1..], lastError, linkLayerType)
    else if incoming[0].code == ReturnError then ([], Some(CaptureError(lastError)))
    else if incoming[0].code == ReturnEof then ([], None)
    else
      var rest := ScriptRun(incoming[1..], lastError, linkLayerType);
      ([ToPacket(incoming[0], linkLayerType)] + rest.0, rest.1)
  }

  /** The polling loop returns the first result that is not a timeout, after one
      pcap_next_ex call per skipped timeout; a pending break is reported by the
      first call and leaves the script untouched. */
  lemma {:induction false} ReadLoopSkipsTimeouts(s: Session)
    ensures s.breakRequested ==> ReadLoop(s) == Poll(EofResult, s.(breakRequested := false), 1)
    ensures !s.breakRequested ==>
              var k := LeadingTimeouts(s.incoming);
              ReadLoop(s) == (if k < |s.incoming| then Poll(s.incoming[k], Session(false, s.incoming[k + 1..]), k + 1)
                              else Poll(EofResult, Session(false, []), k + 1))
    decreases |s.incoming|
  {
    if !s.breakRequested && s.incoming != [] && s.incoming[0].code == 0 {
      var rest := Session(false, s.incoming[1..]);
      ReadLoopSkipsTimeouts(rest);
      var k := LeadingTimeouts(rest.incoming);
      if k < |rest.incoming| {
        assert rest.incoming[k + 1..] == s.incoming[k + 2..];
      }
    }
  }

  /** One read on an open reader: after the leading timeouts, the first scripted
      result decides the outcome. A -1 raises the native error after a pcap_geterr
      call, a -2 or a used-up script is the end of the stream, and any other code
      is the packet of that result. Every read makes one pcap_next_ex call per
      skipped timeout plus one; a pending break is reported by the first call. */
  lemma ReadStepMatchesScript(raw: int, lastError: string, linkLayerType: int, s: Session)
    ensures s.breakRequested ==>
              ReadStep(false, raw, lastError, linkLayerType, s) == Step(EndOfStream, s.(breakRequested := false), [PcapNextEx(raw)])
    ensures !s.breakRequested ==>
              var st := ReadStep(false, raw, lastError, linkLayerType, s);
              var k := LeadingTimeouts(s.incoming);
              && (k == |s.incoming| ==> st == Step(EndOfStream, Session(false, []), Polls(raw, k + 1)))
              && (k < |s.incoming| && s.incoming[k].code == ReturnError ==>
                    st == Step(Failed(CaptureError(lastError)), Session(false, s.incoming[k + 1..]),
                               Polls(raw, k + 1) + [PcapGetErr(raw)]))
              && (k < |s.incoming| && s.incoming[k].code == ReturnEof ==>
                    st == Step(EndOfStream, Session(false, s.incoming[k + 1..]), Polls(raw, k + 1)))
              && (k < |s.incoming| && s.incoming[k].code != ReturnError && s.incoming[k].code != ReturnEof ==>
                    st == Step(Read(ToPacket(s.incoming[k], linkLayerType)), Session(false, s.incoming[k + 1..]),
                               Polls(raw, k + 1)))
  {
    ReadLoopSkipsTimeouts(s);
  }

  /** Skipping the leading timeouts does not change the reference reading. */
  lemma {:induction false} ScriptRunSkipsTimeouts(incoming: Script, lastError: string, linkLayerType: int)
    ensures ScriptRun(incoming, lastError, linkLayerType)
         == ScriptRun(incoming[LeadingTimeouts(incoming)..], lastError, linkLayerType)
    decreases |incoming|
  {
    if incoming != [] && incoming[0].code == 0 {
      ScriptRunSkipsTimeouts(incoming[1..], lastError, linkLayerType);
      assert incoming[1..][LeadingTimeouts(incoming[1..])..] == incoming[LeadingTimeouts(incoming)..];
    }
  }

  /** The packets a whole pass reads, and the error that ends it, are those of
      the reference reading of the script; a pending break ends the pass at once
      without an error, and a disposed reader raises before any foreign call. */
  lemma {:induction false} DrainMatchesScript(closed: bool, raw: int, lastError: string, linkLayerType: int, s: Session)
    ensures closed ==> Drain(closed, raw, lastError, linkLayerType, s) == Run([], Some(ObjectDisposed(ReaderName)), s, [])
    ensures !closed && s.breakRequested ==>
              Drain(closed, raw, lastError, linkLayerType, s) == Run([], None, s.(breakRequested := false), [PcapNextEx(raw)])
    ensures !closed && !s.breakRequested ==>
              var run := Drain(closed, raw, lastError, linkLayerType, s);
              (run.packets, run.error) == ScriptRun(s.incoming, lastError, linkLayerType)
    decreases |s.incoming|
  {
    if !closed {
      ReadLoopSkipsTimeouts(s);
      if !s.breakRequested {
        ScriptRunSkipsTimeouts(s.incoming, lastError, linkLayerType);
        var k := LeadingTimeouts(s.incoming);
        if k < |s.incoming| {
          var tail := s.incoming[k..];
          assert tail[1..] == s.incoming[k + 1..];
          if tail[0].code != ReturnError && tail[0].code != ReturnEof {
            DrainMatchesScript(closed, raw, lastError, linkLayerType, Session(false, s.incoming[k + 1..]));
          }
        }
      }
    }
  }
}
